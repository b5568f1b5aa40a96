/** A single threshold neuron (001_Comput_Neuronal.py): a weighted sum of the inputs plus a
    bias, passed through a step activation. The hand-chosen weights compute AND. */
module Neuron {
  import opened Wrappers

  /** W: the weight of each input. */
  const Weights: seq<real> := [0.5, 0.5]

  /** B: the bias, i.e. a threshold of 0.7. */
  const Bias: real := -0.7

  /** X_prueba: the four rows of the AND truth table. */
  const AndInputs: seq<seq<real>> := [[0.0, 0.0], [0.0, 1.0], [1.0, 0.0], [1.0, 1.0]]

  /** `funcion_activacion`: the neuron fires (1) exactly when the weighted sum reaches the
      threshold 0, which is inclusive. */
  function Step(z: real): (y: int)
    ensures y == 0 || y == 1
    ensures y == 1 <==> z >= 0.0
  {
    if z >= 0.0 then 1 else 0
  }

  /** `np.dot` of two vectors of one length. */
  function Dot(x: seq<real>, w: seq<real>): real
    requires |x| == |w|
  {
    if x == [] then 0.0 else Dot(x[..|x| - 1], w[..|w| - 1]) + x[|x| - 1] * w[|w| - 1]
  }

  /** `perceptron`: the output and the weighted sum z = x·W + B. `np.dot` of vectors of
      different lengths raises ValueError. */
  function Perceptron(x: seq<real>, w: seq<real>, b: real): (r: Result<(int, real)>)
    ensures r.Err? <==> |x| != |w|
    ensures r.Err? ==> r.error == ValueError
    ensures r.Ok? ==> r.value.1 == Dot(x, w) + b && r.value.0 == Step(r.value.1)
  {
    if |x| != |w| then Err(ValueError)
    else
      var z := Dot(x, w) + b;
      Ok((Step(z), z))
  }

  /** A larger weighted sum never gives a smaller output. */
  lemma StepMonotone(z1: real, z2: real)
    requires z1 <= z2
    ensures Step(z1) <= Step(z2)
  {
  }

  /** With non-negative weights, raising any inputs never lowers the weighted sum. */
  lemma {:induction false} DotMonotone(x: seq<real>, y: seq<real>, w: seq<real>)
    requires |x| == |y| == |w|
    requires forall i :: 0 <= i < |w| ==> w[i] >= 0.0 && x[i] <= y[i]
    ensures Dot(x, w) <= Dot(y, w)
  {
    if x != [] {
      var n := |x| - 1;
      DotMonotone(x[..n], y[..n], w[..n]);
      assert x[n] * w[n] <= y[n] * w[n] by {
        assert (y[n] - x[n]) * w[n] >= 0.0;
      }
    }
  }

  /** With non-negative weights, raising inputs (for instance from 0 to 1) never lowers the
      output of the neuron. */
  lemma OutputMonotone(x: seq<real>, y: seq<real>, w: seq<real>, b: real)
    requires |x| == |y| == |w|
    requires forall i :: 0 <= i < |w| ==> w[i] >= 0.0 && x[i] <= y[i]
    ensures Perceptron(x, w, b).Ok? && Perceptron(y, w, b).Ok?
    ensures Perceptron(x, w, b).value.0 <= Perceptron(y, w, b).value.0
  {
    DotMonotone(x, y, w);
    StepMonotone(Dot(x, w) + b, Dot(y, w) + b);
  }

  /** The weights of the script compute AND: the sums are -0.7, -0.2, -0.2 and 0.3, and only
      the last row fires. */
  lemma AndTruthTable()
    ensures Perceptron(AndInputs[0], Weights, Bias) == Ok((0, -0.7))
    ensures Perceptron(AndInputs[1], Weights, Bias) == Ok((0, -0.2))
    ensures Perceptron(AndInputs[2], Weights, Bias) == Ok((0, -0.2))
    ensures Perceptron(AndInputs[3], Weights, Bias) == Ok((1, 0.3))
  {
    var w := Weights;
    assert w[..1] == [0.5];
    var a, b, c, d := AndInputs[0], AndInputs[1], AndInputs[2], AndInputs[3];
    assert a[..1] == [0.0] && b[..1] == [0.0] && c[..1] == [1.0] && d[..1] == [1.0];
    assert Dot([0.0], [0.5]) == 0.0 && Dot([1.0], [0.5]) == 0.5;
    assert Dot(a, w) == 0.0 && Dot(b, w) == 0.5 && Dot(c, w) == 0.5 && Dot(d, w) == 1.0;
  }

  /** On 0/1 inputs the neuron fires exactly when both inputs are 1. */
  lemma ComputesAnd(p: real, q: real)
    requires (p == 0.0 || p == 1.0) && (q == 0.0 || q == 1.0)
    ensures Perceptron([p, q], Weights, Bias).Ok?
    ensures Perceptron([p, q], Weights, Bias).value.0 == 1 <==> p == 1.0 && q == 1.0
  {
    assert [p, q][..1] == [p];
    assert Dot([p], [0.5]) == p * 0.5;
    assert Dot([p, q], Weights) == p * 0.5 + q * 0.5;
  }
}
