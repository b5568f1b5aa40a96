/** Training a single neuron with the Perceptron rule or the ADALINE delta rule
    (003_Perceptron.py). The initial weights, which the script draws at random, are an input. */
module PerceptronTraining {
  import opened Wrappers
  import opened Reals
  import opened Neuron

  /** X: the AND inputs. */
  const Samples: seq<seq<real>> := [[0.0, 0.0], [0.0, 1.0], [1.0, 0.0], [1.0, 1.0]]

  /** Y: the AND targets. */
  const Targets: seq<real> := [0.0, 0.0, 0.0, 1.0]

  const Epochs: nat := 20

  /** TASA_APRENDIZAJE. */
  const LearningRate: real := 0.1

  /** `activacion_lineal`: ADALINE's output is the weighted sum itself. (`activacion_paso` is
      `Neuron.Step`.) */
  function Linear(z: real): real {
    z
  }

  /** Every sample has one entry per weight, as the rows of a two-dimensional array do. */
  predicate Rows(xs: seq<seq<real>>, n: nat) {
    forall i :: 0 <= i < |xs| ==> |xs[i]| == n
  }

  /** The number of samples `zip(X, Y)` visits. */
  function PairCount(xs: seq<seq<real>>, ys: seq<real>): nat {
    if |xs| <= |ys| then |xs| else |ys|
  }

  predicate KnownKind(kind: string) {
    kind == "Perceptron" || kind == "ADALINE"
  }

  /** The error of one sample with weighted sum z: target minus the step output for
      'Perceptron', target minus z for 'ADALINE'. Any other kind leaves `error` unbound. */
  function SampleError(kind: string, y: real, z: real): (r: Result<real>)
    ensures r.Err? <==> !KnownKind(kind)
    ensures r.Err? ==> r.error == NameError
  {
    if kind == "Perceptron" then Ok(y - Step(z) as real)
    else if kind == "ADALINE" then Ok(y - Linear(z))
    else Err(NameError)
  }

  /** `W += c * x`, entry by entry. */
  function Nudge(w: seq<real>, c: real, x: seq<real>): (w': seq<real>)
    requires |x| == |w|
    ensures |w'| == |w|
  {
    seq(|w|, i requires 0 <= i < |w| => w[i] + Mul(c, x[i]))
  }

  /** Weights, bias and the running sum of squared errors of an epoch. */
  datatype State = State(w: seq<real>, b: real, total: real)

  /** One sample: forward pass, error, then the update of weights, bias and error sum. */
  function Learn(kind: string, rate: real, x: seq<real>, y: real, s: State): (r: Result<State>)
    requires |x| == |s.w|
    ensures r.Ok? ==> |r.value.w| == |s.w|
  {
    var e :- SampleError(kind, y, Dot(x, s.w) + s.b);
    var c := Mul(rate, e);
    Ok(State(Nudge(s.w, c, x), s.b + c, s.total + Mul(e, e)))
  }

  /** The state after the first n samples of an epoch, in dataset order. */
  function EpochPrefix(kind: string, rate: real, xs: seq<seq<real>>, ys: seq<real>, s: State, n: nat)
    : (r: Result<State>)
    requires n <= PairCount(xs, ys) && Rows(xs, |s.w|)
    ensures r.Ok? ==> |r.value.w| == |s.w|
  {
    if n == 0 then Ok(s)
    else
      var t :- EpochPrefix(kind, rate, xs, ys, s, n - 1);
      Learn(kind, rate, xs[n - 1], ys[n - 1], t)
  }

  /** One epoch from weights w and bias b: the new weights and bias and the mean squared error,
      whose division by `len(X)` fails on an empty dataset. */
  function Epoch(kind: string, rate: real, xs: seq<seq<real>>, ys: seq<real>, w: seq<real>, b: real)
    : (r: Result<(seq<real>, real, real)>)
    requires Rows(xs, |w|)
    ensures r.Ok? ==> |r.value.0| == |w|
    ensures |xs| == 0 ==> r == Err(ZeroDivisionError)
    ensures r.Ok? ==> |xs| > 0 && EpochPrefix(kind, rate, xs, ys, State(w, b, 0.0), PairCount(xs, ys)).Ok?
    ensures r.Ok? ==>
      r.value.2 * |xs| as real == EpochPrefix(kind, rate, xs, ys, State(w, b, 0.0), PairCount(xs, ys)).value.total
  {
    var t :- EpochPrefix(kind, rate, xs, ys, State(w, b, 0.0), PairCount(xs, ys));
    if |xs| == 0 then Err(ZeroDivisionError) else Ok((t.w, t.b, t.total / |xs| as real))
  }

  /** `entrenar_neurona` for a number of epochs: final weights, final bias and the error of
      each epoch. */
  function Train(kind: string, rate: real, xs: seq<seq<real>>, ys: seq<real>, w0: seq<real>, epochs: nat)
    : (r: Result<(seq<real>, real, seq<real>)>)
    requires Rows(xs, |w0|)
    ensures r.Ok? ==> |r.value.0| == |w0| && |r.value.2| == epochs
  {
    if epochs == 0 then Ok((w0, 0.0, []))
    else
      var before :- Train(kind, rate, xs, ys, w0, epochs - 1);
      var after :- Epoch(kind, rate, xs, ys, before.0, before.1);
      Ok((after.0, after.1, before.2 + [after.2]))
  }

  /** `W += TASA_APRENDIZAJE * error_escalar * x` on the weight array, in place. */
  method AddScaled(w: array<real>, c: real, x: seq<real>)
    requires |x| == w.Length
    modifies w
    ensures w[..] == Nudge(old(w[..]), c, x)
  {
    ghost var before := w[..];
    var j := 0;
    while j < w.Length
      invariant 0 <= j <= w.Length
      invariant forall k :: 0 <= k < j ==> w[k] == before[k] + Mul(c, x[k])
      invariant forall k :: j <= k < w.Length ==> w[k] == before[k]
    {
      w[j] := w[j] + Mul(c, x[j]);
      j := j + 1;
    }
  }

  /** The inner loop of `entrenar_neurona`: every sample in dataset order, W updated in place,
      returning the new bias and the epoch's sum of squared errors. */
  method EpochPass(kind: string, xs: seq<seq<real>>, ys: seq<real>, w: array<real>, b0: real)
    returns (r: Result<(real, real)>)
    requires Rows(xs, w.Length)
    modifies w
    ensures var run := EpochPrefix(kind, LearningRate, xs, ys, State(old(w[..]), b0, 0.0), PairCount(xs, ys));
      && (r.Err? <==> run.Err?)
      && (r.Err? ==> r.error == run.error)
      && (r.Ok? ==> run.value == State(w[..], r.value.0, r.value.1))
  {
    hide Mul, Dot, Nudge;
    ghost var start := State(w[..], b0, 0.0);
    var b, total := b0, 0.0;
    var i := 0;
    while i < PairCount(xs, ys)
      invariant i <= PairCount(xs, ys)
      invariant EpochPrefix(kind, LearningRate, xs, ys, start, i) == Ok(State(w[..], b, total))
    {
      var x, y := xs[i], ys[i];
      var z := Dot(x, w[..]) + b;
      var e: real;
      if kind == "Perceptron" {
        e := y - Step(z) as real;
      } else if kind == "ADALINE" {
        e := y - Linear(z);
      } else {
        EpochPrefixOutcome(kind, LearningRate, xs, ys, start, PairCount(xs, ys));
        return Err(NameError);
      }
      var c := Mul(LearningRate, e);
      AddScaled(w, c, x);
      b := b + c;
      total := total + Mul(e, e);
      i := i + 1;
    }
    r := Ok((b, total));
  }

  /** `entrenar_neurona`: EPOCHS passes over the samples, updating W in place and b after
      every sample, and recording each epoch's mean squared error. */
  method TrainNeuron(xs: seq<seq<real>>, ys: seq<real>, kind: string, w0: seq<real>)
    returns (r: Result<(seq<real>, real, seq<real>)>)
    requires Rows(xs, |w0|)
    ensures r == Train(kind, LearningRate, xs, ys, w0, Epochs)
  {
    var w := new real[|w0|](i requires 0 <= i < |w0| => w0[i]);
    assert w[..] == w0;
    var b := 0.0;
    var errors: seq<real> := [];
    var epoch := 0;
    while epoch < Epochs
      invariant epoch <= Epochs && w.Length == |w0|
      invariant Train(kind, LearningRate, xs, ys, w0, epoch) == Ok((w[..], b, errors))
    {
      ghost var before := w[..];
      var pass := EpochPass(kind, xs, ys, w, b);
      if pass.Err? || |xs| == 0 {
        TrainOutcome(kind, LearningRate, xs, ys, w0, Epochs);
        EpochPrefixOutcome(kind, LearningRate, xs, ys, State(before, b, 0.0), PairCount(xs, ys));
        return if |xs| == 0 then Err(ZeroDivisionError) else Err(NameError);
      }
      b := pass.value.0;
      errors := errors + [pass.value.1 / |xs| as real];
      epoch := epoch + 1;
    }
    r := Ok((w[..], b, errors));
  }

  /** How a run of an epoch prefix ends: it fails exactly when some sample is visited with an
      unknown kind, and the error sum never drops. */
  lemma {:induction false} EpochPrefixOutcome(kind: string, rate: real, xs: seq<seq<real>>, ys: seq<real>, s: State, n: nat)
    requires n <= PairCount(xs, ys) && Rows(xs, |s.w|)
    ensures EpochPrefix(kind, rate, xs, ys, s, n).Err? <==> n > 0 && !KnownKind(kind)
    ensures EpochPrefix(kind, rate, xs, ys, s, n).Err? ==> EpochPrefix(kind, rate, xs, ys, s, n).error == NameError
    ensures EpochPrefix(kind, rate, xs, ys, s, n).Ok? ==> EpochPrefix(kind, rate, xs, ys, s, n).value.total >= s.total
  {
    if n > 0 {
      EpochPrefixOutcome(kind, rate, xs, ys, s, n - 1);
      var t := EpochPrefix(kind, rate, xs, ys, s, n - 1);
      if t.Ok? && KnownKind(kind) {
        var e := SampleError(kind, ys[n - 1], Dot(xs[n - 1], t.value.w) + t.value.b).value;
        SquareSign(e);
      }
    }
  }

  /** How training ends: a ZeroDivisionError on an empty dataset, a NameError for an unknown
      kind once a sample is visited, and otherwise one non-negative mean squared error per
      epoch. */
  lemma {:induction false} TrainOutcome(kind: string, rate: real, xs: seq<seq<real>>, ys: seq<real>, w0: seq<real>, epochs: nat)
    requires Rows(xs, |w0|)
    ensures Train(kind, rate, xs, ys, w0, epochs).Err? <==>
      epochs > 0 && (|xs| == 0 || (!KnownKind(kind) && PairCount(xs, ys) > 0))
    ensures Train(kind, rate, xs, ys, w0, epochs).Err? ==>
      Train(kind, rate, xs, ys, w0, epochs).error == if |xs| == 0 then ZeroDivisionError else NameError
    ensures Train(kind, rate, xs, ys, w0, epochs).Ok? ==>
      var errors := Train(kind, rate, xs, ys, w0, epochs).value.2;
      |errors| == epochs && forall k :: 0 <= k < epochs ==> errors[k] >= 0.0
  {
    if epochs > 0 {
      TrainOutcome(kind, rate, xs, ys, w0, epochs - 1);
      var before := Train(kind, rate, xs, ys, w0, epochs - 1);
      if before.Ok? {
        var s := State(before.value.0, before.value.1, 0.0);
        EpochPrefixOutcome(kind, rate, xs, ys, s, PairCount(xs, ys));
        var t := EpochPrefix(kind, rate, xs, ys, s, PairCount(xs, ys));
        if t.Ok? && |xs| > 0 {
          assert t.value.total / |xs| as real >= 0.0;
        }
      }
    }
  }

  /** A sample with zero error leaves weights, bias and error sum as they were. */
  lemma ZeroErrorKeepsState(kind: string, rate: real, x: seq<real>, y: real, s: State)
    requires |x| == |s.w|
    requires SampleError(kind, y, Dot(x, s.w) + s.b) == Ok(0.0)
    ensures Learn(kind, rate, x, y, s) == Ok(s)
  {
    assert Nudge(s.w, Mul(rate, 0.0), x) == s.w;
  }

  /** With a 0/1 target the Perceptron error is -1, 0 or 1, and 0 exactly when the prediction is
      right; the ADALINE error is 0 exactly when the weighted sum hits the target. */
  lemma ErrorOfKind(y: real, z: real)
    ensures (y == 0.0 || y == 1.0) ==>
      && SampleError("Perceptron", y, z).value in {-1.0, 0.0, 1.0}
      && (SampleError("Perceptron", y, z).value == 0.0 <==> Step(z) as real == y)
    ensures SampleError("ADALINE", y, z).value == 0.0 <==> z == y
  {
  }

  /** Whether every sample of the dataset already has zero error under weights w and bias b. */
  predicate Fits(kind: string, xs: seq<seq<real>>, ys: seq<real>, w: seq<real>, b: real, n: nat)
    requires n <= PairCount(xs, ys) && Rows(xs, |w|)
  {
    forall i :: 0 <= i < n ==> SampleError(kind, ys[i], Dot(xs[i], w) + b) == Ok(0.0)
  }

  /** Weights that already fit every sample are a fixed point of an epoch, with zero error. */
  lemma {:induction false} FittedEpochPrefix(kind: string, rate: real, xs: seq<seq<real>>, ys: seq<real>, w: seq<real>, b: real, n: nat)
    requires n <= PairCount(xs, ys) && Rows(xs, |w|) && Fits(kind, xs, ys, w, b, n)
    ensures EpochPrefix(kind, rate, xs, ys, State(w, b, 0.0), n) == Ok(State(w, b, 0.0))
  {
    if n > 0 {
      FittedEpochPrefix(kind, rate, xs, ys, w, b, n - 1);
      ZeroErrorKeepsState(kind, rate, xs[n - 1], ys[n - 1], State(w, b, 0.0));
    }
  }

  lemma FittedEpoch(kind: string, rate: real, xs: seq<seq<real>>, ys: seq<real>, w: seq<real>, b: real)
    requires Rows(xs, |w|) && |xs| > 0 && Fits(kind, xs, ys, w, b, PairCount(xs, ys))
    ensures Epoch(kind, rate, xs, ys, w, b) == Ok((w, b, 0.0))
  {
    FittedEpochPrefix(kind, rate, xs, ys, w, b, PairCount(xs, ys));
  }
}
