/** The rectified linear unit and its derivative (002_Func_Activacion.py), on one value. */
module Activation {

  /** `relu`: `np.maximum(0, x)`, the larger of 0 and x. */
  function Relu(x: real): (y: real)
    ensures y >= 0.0 && y >= x
    ensures y == x || y == 0.0
  {
    if x > 0.0 then x else 0.0
  }

  /** `derivada_relu`: the slope of `relu`, taken as 0 at the kink x = 0. */
  function ReluDerivative(x: real): (d: int)
    ensures d == 0 || d == 1
    ensures d == 1 <==> x > 0.0
  {
    if x > 0.0 then 1 else 0
  }

  /** `relu` is x on the non-negative reals and 0 on the negative ones. */
  lemma ReluCases(x: real)
    ensures x >= 0.0 ==> Relu(x) == x
    ensures x < 0.0 ==> Relu(x) == 0.0
  {
  }

  /** Rectifying twice is rectifying once. */
  lemma ReluIdempotent(x: real)
    ensures Relu(Relu(x)) == Relu(x)
  {
  }

  /** `relu` is its input scaled by its own derivative. */
  lemma ReluIsInputTimesDerivative(x: real)
    ensures Relu(x) == x * ReluDerivative(x) as real
  {
  }

  /** The sample inputs -2, 0 and 3 rectify to 0, 0 and 3, and the derivative vanishes at 0. */
  lemma SampleValues()
    ensures Relu(-2.0) == 0.0 && Relu(0.0) == 0.0 && Relu(3.0) == 3.0
    ensures ReluDerivative(-2.0) == 0 && ReluDerivative(0.0) == 0 && ReluDerivative(3.0) == 1
  {
  }
}
