/** The numpy vector operations the hidden-Markov-model scripts use, on exact reals: sums,
    element-wise products, vector-matrix products, normalisation and the first arg-max. */
module Vectors {
  import opened Reals

  /** `np.sum`. */
  function Sum(v: seq<real>): real {
    if v == [] then 0.0 else Sum(v[..|v| - 1]) + v[|v| - 1]
  }

  function Zeros(n: nat): (z: seq<real>)
    ensures |z| == n && forall i :: 0 <= i < n ==> z[i] == 0.0
  {
    seq(n, _ => 0.0)
  }

  function Ones(n: nat): (o: seq<real>)
    ensures |o| == n && forall i :: 0 <= i < n ==> o[i] == 1.0
  {
    seq(n, _ => 1.0)
  }

  /** `u * w` on two arrays of one length. */
  function Hadamard(u: seq<real>, w: seq<real>): (r: seq<real>)
    requires |u| == |w|
    ensures |r| == |u|
  {
    seq(|u|, i requires 0 <= i < |u| => Mul(u[i], w[i]))
  }

  /** u + c·w. */
  function AddScaled(u: seq<real>, c: real, w: seq<real>): (r: seq<real>)
    requires |u| == |w|
    ensures |r| == |u|
  {
    seq(|u|, i requires 0 <= i < |u| => u[i] + Mul(c, w[i]))
  }

  /** Every row has `cols` entries. */
  predicate Matrix(a: seq<seq<real>>, cols: nat) {
    forall i :: 0 <= i < |a| ==> |a[i]| == cols
  }

  /** `np.dot(v, A)`: the rows of A weighted by the entries of v and added up. */
  function VecMat(v: seq<real>, a: seq<seq<real>>, cols: nat): (r: seq<real>)
    requires |v| == |a| && Matrix(a, cols)
    ensures |r| == cols
  {
    if v == [] then Zeros(cols)
    else
      var k := |v| - 1;
      AddScaled(VecMat(v[..k], a[..k], cols), v[k], a[k])
  }

  /** `A[:, k]`. */
  function Column(a: seq<seq<real>>, k: nat): (c: seq<real>)
    requires forall i :: 0 <= i < |a| ==> k < |a[i]|
    ensures |c| == |a|
  {
    seq(|a|, i requires 0 <= i < |a| => a[i][k])
  }

  function Divide(v: seq<real>, s: real): (r: seq<real>)
    requires s != 0.0
    ensures |r| == |v|
  {
    seq(|v|, i requires 0 <= i < |v| => v[i] / s)
  }

  /** `v / np.sum(v)`: the entries then add up to 1. */
  function Normalise(v: seq<real>): (r: seq<real>)
    requires Sum(v) != 0.0
    ensures |r| == |v| && Sum(r) == 1.0
  {
    SumDivide(v, Sum(v));
    SelfRatio(Sum(v));
    Divide(v, Sum(v))
  }

  predicate Positive(v: seq<real>) {
    forall i :: 0 <= i < |v| ==> v[i] > 0.0
  }

  predicate NonNegative(v: seq<real>) {
    forall i :: 0 <= i < |v| ==> v[i] >= 0.0
  }

  /** `np.argmax`: an index of a largest entry, the lowest one on ties. */
  function ArgMax(s: seq<real>): (m: nat)
    requires s != []
    ensures m < |s|
    ensures forall j :: 0 <= j < |s| ==> s[j] <= s[m]
    ensures forall j :: 0 <= j < m ==> s[j] < s[m]
  {
    if |s| == 1 then 0
    else
      var m := ArgMax(s[..|s| - 1]);
      if s[|s| - 1] > s[m] then |s| - 1 else m
  }

  /** `np.max`. */
  function Max(s: seq<real>): real
    requires s != []
  {
    s[ArgMax(s)]
  }

  /** Dividing every entry divides the sum. */
  lemma {:induction false} SumDivide(v: seq<real>, s: real)
    requires s != 0.0
    ensures Sum(Divide(v, s)) == Sum(v) / s
  {
    if v != [] {
      var n := |v| - 1;
      assert Divide(v, s)[..n] == Divide(v[..n], s);
      SumDivide(v[..n], s);
      FractionSum(Sum(v[..n]), v[n], s);
    }
  }

  /** Sums are linear. */
  lemma {:induction false} SumAddScaled(u: seq<real>, c: real, w: seq<real>)
    requires |u| == |w|
    ensures Sum(AddScaled(u, c, w)) == Sum(u) + Mul(c, Sum(w))
  {
    if u != [] {
      var n := |u| - 1;
      assert AddScaled(u, c, w)[..n] == AddScaled(u[..n], c, w[..n]);
      SumAddScaled(u[..n], c, w[..n]);
    }
  }

  lemma {:induction false} SumZeros(n: nat)
    ensures Sum(Zeros(n)) == 0.0
  {
    if n > 0 {
      assert Zeros(n)[..n - 1] == Zeros(n - 1);
      SumZeros(n - 1);
    }
  }

  /** Every row of a stochastic matrix adds up to 1. */
  predicate Stochastic(a: seq<seq<real>>) {
    forall i :: 0 <= i < |a| ==> Sum(a[i]) == 1.0
  }

  /** Multiplying by a stochastic matrix keeps the total mass. */
  lemma {:induction false} VecMatKeepsSum(v: seq<real>, a: seq<seq<real>>, cols: nat)
    requires |v| == |a| && Matrix(a, cols) && Stochastic(a)
    ensures Sum(VecMat(v, a, cols)) == Sum(v)
  {
    if v == [] {
      SumZeros(cols);
    } else {
      var k := |v| - 1;
      VecMatKeepsSum(v[..k], a[..k], cols);
      SumAddScaled(VecMat(v[..k], a[..k], cols), v[k], a[k]);
    }
  }

  /** Non-negative weights of non-negative rows give a non-negative vector. */
  lemma {:induction false} VecMatNonNegative(v: seq<real>, a: seq<seq<real>>, cols: nat)
    requires |v| == |a| && Matrix(a, cols) && NonNegative(v)
    requires forall i :: 0 <= i < |a| ==> NonNegative(a[i])
    ensures NonNegative(VecMat(v, a, cols))
  {
    if v != [] {
      var k := |v| - 1;
      VecMatNonNegative(v[..k], a[..k], cols);
      forall j | 0 <= j < cols
        ensures Mul(v[k], a[k][j]) >= 0.0
      {
        MulNonNegative(v[k], a[k][j]);
      }
    }
  }

  /** Positive weights of positive rows give a positive vector. */
  lemma {:induction false} VecMatPositive(v: seq<real>, a: seq<seq<real>>, cols: nat)
    requires |v| == |a| && Matrix(a, cols) && v != [] && Positive(v)
    requires forall i :: 0 <= i < |a| ==> Positive(a[i])
    ensures Positive(VecMat(v, a, cols))
  {
    var k := |v| - 1;
    VecMatNonNegative(v[..k], a[..k], cols);
    forall j | 0 <= j < cols
      ensures Mul(v[k], a[k][j]) > 0.0
    {
      ProductPositive(v[k], a[k][j]);
    }
  }

  lemma HadamardPositive(u: seq<real>, w: seq<real>)
    requires |u| == |w| && Positive(u) && Positive(w)
    ensures Positive(Hadamard(u, w))
  {
    forall i | 0 <= i < |u|
      ensures Mul(u[i], w[i]) > 0.0
    {
      ProductPositive(u[i], w[i]);
    }
  }

  /** A non-empty positive vector has a positive sum. */
  lemma {:induction false} SumPositive(v: seq<real>)
    requires v != [] && Positive(v)
    ensures Sum(v) > 0.0
  {
    if |v| > 1 {
      SumPositive(v[..|v| - 1]);
    }
  }

  lemma {:induction false} SumNonNegative(v: seq<real>)
    requires NonNegative(v)
    ensures Sum(v) >= 0.0
  {
    if v != [] {
      SumNonNegative(v[..|v| - 1]);
    }
  }

  /** Normalising a positive vector gives a positive probability vector. */
  lemma NormalisePositive(v: seq<real>)
    requires v != [] && Positive(v)
    ensures Sum(v) > 0.0 && Positive(Normalise(v))
  {
    SumPositive(v);
  }

  /** A vector that already adds up to 1 is its own normalisation. */
  lemma NormaliseDistribution(v: seq<real>)
    requires Sum(v) == 1.0
    ensures Normalise(v) == v
  {
  }
  /** Dividing the weights by s divides the product by s. */
  lemma {:induction false} VecMatDivide(v: seq<real>, a: seq<seq<real>>, cols: nat, s: real)
    requires |v| == |a| && Matrix(a, cols) && s != 0.0
    ensures VecMat(Divide(v, s), a, cols) == Divide(VecMat(v, a, cols), s)
  {
    if v != [] {
      var k := |v| - 1;
      var d := Divide(v, s);
      assert d[..k] == Divide(v[..k], s) && d[k] == v[k] / s;
      VecMatDivide(v[..k], a[..k], cols, s);
      AddScaledDivide(VecMat(v[..k], a[..k], cols), v[k], a[k], s);
    }
  }

  lemma AddScaledDivide(u: seq<real>, c: real, w: seq<real>, s: real)
    requires |u| == |w| && s != 0.0
    ensures AddScaled(Divide(u, s), c / s, w) == Divide(AddScaled(u, c, w), s)
  {
    forall j | 0 <= j < |u|
      ensures u[j] / s + Mul(c / s, w[j]) == (u[j] + Mul(c, w[j])) / s
    {
    }
  }

  lemma HadamardDivide(u: seq<real>, w: seq<real>, s: real)
    requires |u| == |w| && s != 0.0
    ensures Hadamard(Divide(u, s), w) == Divide(Hadamard(u, w), s)
  {
    forall i | 0 <= i < |u|
      ensures Mul(u[i] / s, w[i]) == Mul(u[i], w[i]) / s
    {
    }
  }

  /** Normalisation forgets a common factor. */
  lemma NormaliseDivide(v: seq<real>, s: real)
    requires s != 0.0 && Sum(v) != 0.0
    ensures Sum(Divide(v, s)) == Sum(v) / s != 0.0
    ensures Normalise(Divide(v, s)) == Normalise(v)
  {
    SumDivide(v, s);
    var t := Sum(v);
    hide Sum;
    var d := Divide(v, s);
    assert Sum(d) == t / s;
    assert Normalise(d) == Divide(d, t / s);
    assert Normalise(v) == Divide(v, t);
    forall i | 0 <= i < |v|
      ensures Divide(d, t / s)[i] == Divide(v, t)[i]
    {
      CommonDivisor(v[i], s, t);
    }
  }

  /** Multiplying by a vector of ones changes nothing. */
  lemma HadamardOnes(v: seq<real>)
    ensures Hadamard(v, Ones(|v|)) == v
  {
    forall i | 0 <= i < |v|
      ensures Mul(v[i], 1.0) == v[i]
    {
    }
  }
}
