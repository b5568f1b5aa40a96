/** Filtering, prediction and forward-backward smoothing for hidden Markov models
    (003_Fil_Suav_Pred_Exp.py and 004_Delante_Atras.py). The passes normalise their rows in
    place. A row whose entries add up to zero cannot be normalised: numpy fills it, and every row
    computed from it, with non-finite values. The model records such a row as None. */
module Filtering {
  import opened Wrappers
  import opened Reals
  import opened Vectors
  import opened Hmm

  /** `v /= np.sum(v)`: None when the sum is zero; otherwise the entries keep their proportions
      and add up to 1. */
  function Rescale(v: seq<real>): (r: Option<seq<real>>)
    ensures r.None? <==> Sum(v) == 0.0
    ensures r.Some? ==> |r.value| == |v| && Sum(r.value) == 1.0
    ensures r.Some? ==> forall i :: 0 <= i < |v| ==> Mul(r.value[i], Sum(v)) == v[i]
  {
    if Sum(v) == 0.0 then None else Some(Normalise(v))
  }

  lemma RescaleSome(v: seq<real>)
    requires Sum(v) != 0.0
    ensures Rescale(v) == Some(Normalise(v))
  {
  }

  /** A common non-zero factor does not change a normalisation. */
  lemma RescaleDivide(v: seq<real>, s: real)
    requires s != 0.0
    ensures Rescale(Divide(v, s)) == Rescale(v)
  {
    SumDivide(v, s);
    if Sum(v) != 0.0 {
      NormaliseDivide(v, s);
    }
  }

  /** `np.dot(alpha[t-1, :], A) * B[:, e_t]`: the prediction one step ahead, weighted by the
      evidence. */
  function ForwardStep(m: Model, prev: seq<real>, et: nat): (r: seq<real>)
    requires WellFormed(m) && |prev| == Size(m) && et < |m.b[0]|
    ensures |r| == Size(m)
  {
    Hadamard(VecMat(prev, m.a, Size(m)), Column(m.b, et))
  }

  /** `Pi * B[:, e_0]`. */
  function FirstRow(m: Model, e0: nat): (r: seq<real>)
    requires WellFormed(m) && e0 < |m.b[0]|
    ensures |r| == Size(m)
  {
    Hadamard(m.pi, Column(m.b, e0))
  }

  /** Row t of alpha. Row 0 is normalised only when `normaliseFirst` holds: `forward_pass`
      normalises it, `filtrar_forward` does not. */
  function Alpha(m: Model, e: seq<nat>, t: nat, normaliseFirst: bool): (r: Option<seq<real>>)
    requires WellFormed(m) && Emits(m, e) && t < |e|
    ensures r.Some? ==> |r.value| == Size(m)
    ensures r.Some? && (t > 0 || normaliseFirst) ==> Sum(r.value) == 1.0
  {
    if t == 0 then
      if normaliseFirst then Rescale(FirstRow(m, e[0])) else Some(FirstRow(m, e[0]))
    else
      match Alpha(m, e, t - 1, normaliseFirst)
      case None => None
      case Some(prev) => Rescale(ForwardStep(m, prev, e[t]))
  }

  lemma AlphaFirst(m: Model, e: seq<nat>, normaliseFirst: bool)
    requires WellFormed(m) && Emits(m, e) && 0 < |e|
    ensures Alpha(m, e, 0, normaliseFirst)
      == if normaliseFirst then Rescale(FirstRow(m, e[0])) else Some(FirstRow(m, e[0]))
  {
  }

  lemma AlphaStep(m: Model, e: seq<nat>, t: nat, normaliseFirst: bool)
    requires WellFormed(m) && Emits(m, e) && 0 < t < |e|
    ensures Alpha(m, e, t - 1, normaliseFirst).None? ==> Alpha(m, e, t, normaliseFirst).None?
    ensures Alpha(m, e, t - 1, normaliseFirst).Some? ==>
      Alpha(m, e, t, normaliseFirst) == Rescale(ForwardStep(m, Alpha(m, e, t - 1, normaliseFirst).value, e[t]))
  {
  }

  /** Once a row cannot be normalised, no later row can. */
  lemma {:induction false} AlphaNoneStays(m: Model, e: seq<nat>, t: nat, u: nat, normaliseFirst: bool)
    requires WellFormed(m) && Emits(m, e) && t <= u < |e|
    requires Alpha(m, e, t, normaliseFirst).None?
    ensures Alpha(m, e, u, normaliseFirst).None?
    decreases u
  {
    if u > t {
      AlphaNoneStays(m, e, t, u - 1, normaliseFirst);
      AlphaStep(m, e, u, normaliseFirst);
    }
  }

  /** Normalising row 0 changes no later row: from t = 1 on, `filtrar_forward` and
      `forward_pass` compute the same rows. */
  lemma {:induction false} FiltersAgree(m: Model, e: seq<nat>, t: nat)
    requires WellFormed(m) && Emits(m, e) && 0 < t < |e|
    requires Sum(FirstRow(m, e[0])) != 0.0
    ensures Alpha(m, e, t, false) == Alpha(m, e, t, true)
  {
    AlphaStep(m, e, t, false);
    AlphaStep(m, e, t, true);
    if t == 1 {
      var raw := FirstRow(m, e[0]);
      var s := Sum(raw);
      AlphaFirst(m, e, false);
      AlphaFirst(m, e, true);
      RescaleSome(raw);
      ForwardStepDivide(m, raw, e[1], s);
      hide Alpha, ForwardStep, Rescale;
      RescaleDivide(ForwardStep(m, raw, e[1]), s);
    } else {
      FiltersAgree(m, e, t - 1);
    }
  }

  /** Dividing the previous row by a constant divides the next unnormalised row by it. */
  lemma ForwardStepDivide(m: Model, prev: seq<real>, et: nat, s: real)
    requires WellFormed(m) && |prev| == Size(m) && et < |m.b[0]| && s != 0.0
    ensures ForwardStep(m, Divide(prev, s), et) == Divide(ForwardStep(m, prev, et), s)
  {
    VecMatDivide(prev, m.a, Size(m), s);
    HadamardDivide(VecMat(prev, m.a, Size(m)), Column(m.b, et), s);
  }

  /** Every probability of the model is positive. */
  predicate PositiveModel(m: Model) {
    && Positive(m.pi)
    && (forall i :: 0 <= i < |m.a| ==> Positive(m.a[i]))
    && (forall i :: 0 <= i < |m.b| ==> Positive(m.b[i]))
  }

  lemma PositiveColumn(m: Model, et: nat)
    requires WellFormed(m) && PositiveModel(m) && et < |m.b[0]|
    ensures Positive(Column(m.b, et))
  {
    forall i | 0 <= i < |m.b|
      ensures m.b[i][et] > 0.0
    {
      assert Positive(m.b[i]);
    }
  }

  /** In a model without zero probabilities every row can be normalised and is positive. */
  lemma {:induction false} AlphaPositive(m: Model, e: seq<nat>, t: nat, normaliseFirst: bool)
    requires WellFormed(m) && PositiveModel(m) && Emits(m, e) && t < |e|
    ensures Alpha(m, e, t, normaliseFirst).Some? && Positive(Alpha(m, e, t, normaliseFirst).value)
  {
    PositiveColumn(m, e[t]);
    if t == 0 {
      HadamardPositive(m.pi, Column(m.b, e[0]));
      NormalisePositive(FirstRow(m, e[0]));
      AlphaFirst(m, e, normaliseFirst);
    } else {
      AlphaPositive(m, e, t - 1, normaliseFirst);
      AlphaStep(m, e, t, normaliseFirst);
      var prev := Alpha(m, e, t - 1, normaliseFirst).value;
      VecMatPositive(prev, m.a, Size(m));
      HadamardPositive(VecMat(prev, m.a, Size(m)), Column(m.b, e[t]));
      NormalisePositive(ForwardStep(m, prev, e[t]));
    }
  }

  /** `np.sum(A[i, :] * B[:, e_{t+1}] * beta[t+1, :])` for every state i. */
  function BackStep(m: Model, next: seq<real>, et: nat): (r: seq<real>)
    requires WellFormed(m) && |next| == Size(m) && et < |m.b[0]|
    ensures |r| == Size(m)
  {
    seq(Size(m), i requires 0 <= i < Size(m) => Sum(Hadamard(Hadamard(m.a[i], Column(m.b, et)), next)))
  }

  /** Row t of beta for a run of T = |f| + 1 observations, given only the columns f of the
      observations after the first: `backward_pass` never looks at the first observation. Row
      T - 1 is all ones and is not normalised; row t < T - 1 is BackStep of row t + 1 with the
      observation at t + 1 (f[t]), normalised. */
  function Beta(m: Model, f: seq<nat>, t: nat): (r: Option<seq<real>>)
    requires WellFormed(m) && Emits(m, f) && t <= |f|
    ensures r.Some? ==> |r.value| == Size(m)
    ensures t == |f| ==> r == Some(Ones(Size(m)))
    ensures t < |f| && r.Some? ==> Sum(r.value) == 1.0
    decreases |f| - t
  {
    if t == |f| then Some(Ones(Size(m)))
    else
      match Beta(m, f, t + 1)
      case None => None
      case Some(next) => Rescale(BackStep(m, next, f[t]))
  }

  lemma BetaLast(m: Model, f: seq<nat>)
    requires WellFormed(m) && Emits(m, f)
    ensures Beta(m, f, |f|) == Some(Ones(Size(m)))
  {
  }

  lemma BetaStep(m: Model, f: seq<nat>, t: nat)
    requires WellFormed(m) && Emits(m, f) && t < |f|
    ensures Beta(m, f, t + 1).None? ==> Beta(m, f, t).None?
    ensures Beta(m, f, t + 1).Some? ==> Beta(m, f, t) == Rescale(BackStep(m, Beta(m, f, t + 1).value, f[t]))
  {
  }

  /** Once a row of beta cannot be normalised, no earlier row can. */
  lemma {:induction false} BetaNoneStays(m: Model, f: seq<nat>, t: nat, u: nat)
    requires WellFormed(m) && Emits(m, f) && u <= t <= |f|
    requires Beta(m, f, t).None?
    ensures Beta(m, f, u).None?
    decreases t - u
  {
    hide Beta;
    if u < t {
      BetaNoneStays(m, f, t, u + 1);
      BetaStep(m, f, u);
    }
  }

  /** In a model without zero probabilities every row of beta can be normalised and is
      positive. */
  lemma {:induction false} BetaPositive(m: Model, f: seq<nat>, t: nat)
    requires WellFormed(m) && PositiveModel(m) && Emits(m, f) && t <= |f|
    ensures Beta(m, f, t).Some? && Positive(Beta(m, f, t).value)
    decreases |f| - t
  {
    hide Beta, Rescale;
    if t < |f| {
      BetaPositive(m, f, t + 1);
      BetaStep(m, f, t);
      var next := Beta(m, f, t + 1).value;
      var col := Column(m.b, f[t]);
      PositiveColumn(m, f[t]);
      var v := BackStep(m, next, f[t]);
      forall i | 0 <= i < Size(m)
        ensures v[i] > 0.0
      {
        assert Positive(m.a[i]);
        HadamardPositive(m.a[i], col);
        HadamardPositive(Hadamard(m.a[i], col), next);
        SumPositive(Hadamard(Hadamard(m.a[i], col), next));
      }
      NormalisePositive(v);
      RescaleSome(v);
    } else {
      BetaLast(m, f);
    }
  }

  /** `forward_backward_smoothing(alpha, beta, k)`: row k of alpha times row k of beta,
      normalised. A negative k counts from the end, as numpy indexing does; any other k outside
      the rows is an IndexError. */
  function Smooth(alpha: seq<seq<real>>, beta: seq<seq<real>>, k: int): (r: Result<Option<seq<real>>>)
    requires |alpha| == |beta| && forall t :: 0 <= t < |alpha| ==> |alpha[t]| == |beta[t]|
    ensures r.Err? <==> !(-|alpha| <= k < |alpha|)
    ensures r.Err? ==> r.error == IndexError
    ensures r.Ok? ==> var row := if k < 0 then k + |alpha| else k;
      && (r.value.None? <==> Sum(Hadamard(alpha[row], beta[row])) == 0.0)
      && (r.value.Some? ==> |r.value.value| == |alpha[row]| && Sum(r.value.value) == 1.0)
    ensures r.Ok? && r.value.Some? ==> var row := if k < 0 then k + |alpha| else k;
      forall i :: 0 <= i < |alpha[row]| ==>
        Mul(r.value.value[i], Sum(Hadamard(alpha[row], beta[row]))) == Mul(alpha[row][i], beta[row][i])
  {
    if !(-|alpha| <= k < |alpha|) then Err(IndexError)
    else
      var row := if k < 0 then k + |alpha| else k;
      Ok(Rescale(Hadamard(alpha[row], beta[row])))
  }

  /** Smoothing at the last time step is filtering: beta is all ones there, so a last alpha row
      that adds up to 1 comes back unchanged (k = T - 1, or k = -1). */
  lemma SmoothAtLast(alpha: seq<seq<real>>, beta: seq<seq<real>>, k: int)
    requires |alpha| == |beta| > 0 && forall t :: 0 <= t < |alpha| ==> |alpha[t]| == |beta[t]|
    requires k == |alpha| - 1 || k == -1
    requires beta[|alpha| - 1] == Ones(|alpha[|alpha| - 1]|) && Sum(alpha[|alpha| - 1]) == 1.0
    ensures Smooth(alpha, beta, k) == Ok(Some(alpha[|alpha| - 1]))
  {
    var last := alpha[|alpha| - 1];
    HadamardOnes(last);
    NormaliseDistribution(last);
  }

  /** `np.dot(P, A)` applied k times: the belief k steps ahead. */
  function Propagate(m: Model, p: seq<real>, k: nat): (r: seq<real>)
    requires WellFormed(m) && |p| == Size(m)
    ensures |r| == Size(m)
  {
    if k == 0 then p else VecMat(Propagate(m, p, k - 1), m.a, Size(m))
  }

  /** With a stochastic transition matrix the predicted belief keeps its total mass. */
  lemma {:induction false} PropagateKeepsSum(m: Model, p: seq<real>, k: nat)
    requires WellFormed(m) && |p| == Size(m) && Stochastic(m.a)
    ensures Sum(Propagate(m, p, k)) == Sum(p)
  {
    if k > 0 {
      PropagateKeepsSum(m, p, k - 1);
      VecMatKeepsSum(Propagate(m, p, k - 1), m.a, Size(m));
    }
  }

  /** With non-negative transitions the predicted belief stays non-negative. */
  lemma {:induction false} PropagateNonNegative(m: Model, p: seq<real>, k: nat)
    requires WellFormed(m) && NonNegativeModel(m) && |p| == Size(m) && NonNegative(p)
    ensures NonNegative(Propagate(m, p, k))
  {
    if k > 0 {
      PropagateNonNegative(m, p, k - 1);
      VecMatNonNegative(Propagate(m, p, k - 1), m.a, Size(m));
    }
  }

  /** Predicting j steps and then k more is predicting j + k steps. */
  lemma {:induction false} PropagateCompose(m: Model, p: seq<real>, j: nat, k: nat)
    requires WellFormed(m) && |p| == Size(m)
    ensures Propagate(m, Propagate(m, p, j), k) == Propagate(m, p, j + k)
  {
    if k > 0 {
      PropagateCompose(m, p, j, k - 1);
    }
  }

  /** `predecir(P, k)`: the loop replaces P by `np.dot(P, A)` k times. A negative k runs no
      step; a vector that does not match A makes the first product fail with a ValueError. */
  method Predict(m: Model, p: seq<real>, k: int) returns (r: Result<seq<real>>)
    requires WellFormed(m)
    ensures r.Err? <==> k > 0 && |p| != Size(m)
    ensures r.Err? ==> r.error == ValueError
    ensures r.Ok? ==> r.value == if k <= 0 then p else Propagate(m, p, k)
  {
    var future := p;
    var steps := if k < 0 then 0 else k;
    for step := 0 to steps
      invariant step == 0 ==> future == p
      invariant step > 0 ==> |p| == Size(m) && future == Propagate(m, p, step)
    {
      if |future| != Size(m) {
        return Err(ValueError);
      }
      future := VecMat(future, m.a, Size(m));
    }
    return Ok(future);
  }

  /** `g[t, :] = v`: row t is overwritten and every other row is kept. */
  method SetRow(g: array2<real>, t: nat, v: seq<real>)
    requires t < g.Length0 && |v| == g.Length1
    modifies g
    ensures RowOf(g, t) == v
    ensures forall k, j :: 0 <= k < g.Length0 && k != t && 0 <= j < g.Length1 ==> g[k, j] == old(g[k, j])
  {
    for j := 0 to g.Length1
      invariant forall i :: 0 <= i < j ==> g[t, i] == v[i]
      invariant forall k, i :: 0 <= k < g.Length0 && k != t && 0 <= i < g.Length1 ==> g[k, i] == old(g[k, i])
    {
      g[t, j] := v[j];
    }
  }

  /** `g[t, :] /= np.sum(g[t, :])`, reporting whether the sum was non-zero. Every other row is
      kept. */
  method NormaliseRow(g: array2<real>, t: nat) returns (finite: bool)
    requires t < g.Length0
    modifies g
    ensures finite <==> Rescale(old(RowOf(g, t))).Some?
    ensures finite ==> RowOf(g, t) == Rescale(old(RowOf(g, t))).value
    ensures forall k, j :: 0 <= k < g.Length0 && k != t && 0 <= j < g.Length1 ==> g[k, j] == old(g[k, j])
  {
    var row := RowOf(g, t);
    var total := Sum(row);
    if total == 0.0 {
      return false;
    }
    for j := 0 to g.Length1
      invariant forall i :: 0 <= i < j ==> g[t, i] == row[i] / total
      invariant forall i :: j <= i < g.Length1 ==> g[t, i] == row[i]
      invariant forall k, i :: 0 <= k < g.Length0 && k != t && 0 <= i < g.Length1 ==> g[k, i] == old(g[k, i])
    {
      g[t, j] := g[t, j] / total;
    }
    finite := true;
  }

  /** The rows of a table. */
  function Rows(g: array2<real>): (r: seq<seq<real>>)
    reads g
    ensures |r| == g.Length0 && forall t :: 0 <= t < g.Length0 ==> r[t] == RowOf(g, t)
  {
    seq(g.Length0, t requires 0 <= t < g.Length0 reads g => RowOf(g, t))
  }

  /** The loop of both forward passes: row 0, normalised when `normaliseFirst` holds, then each
      row from the one before. The loop stops at the first row that cannot be normalised; from
      there on numpy's rows are non-finite, and the model leaves them unspecified. */
  method ForwardTable(m: Model, e: seq<nat>, normaliseFirst: bool) returns (alpha: array2<real>, finite: bool)
    requires WellFormed(m) && Emits(m, e) && |e| > 0
    ensures fresh(alpha) && alpha.Length0 == |e| && alpha.Length1 == Size(m)
    ensures finite <==> Alpha(m, e, |e| - 1, normaliseFirst).Some?
    ensures forall t :: 0 <= t < |e| && Alpha(m, e, t, normaliseFirst).Some? ==>
      RowOf(alpha, t) == Alpha(m, e, t, normaliseFirst).value
  {
    hide Alpha, ForwardStep, Rescale;
    var n, T := Size(m), |e|;
    alpha := new real[T, n]((_, _) => 0.0);
    AlphaFirst(m, e, normaliseFirst);
    SetRow(alpha, 0, FirstRow(m, e[0]));
    finite := true;
    if normaliseFirst {
      finite := NormaliseRow(alpha, 0);
    }
    var t := 1;
    while t < T && finite
      invariant 1 <= t <= T
      invariant alpha.Length0 == T && alpha.Length1 == n
      invariant finite <==> Alpha(m, e, t - 1, normaliseFirst).Some?
      invariant forall k, j :: 0 <= k < t && 0 <= j < n && Alpha(m, e, k, normaliseFirst).Some? ==>
        alpha[k, j] == Alpha(m, e, k, normaliseFirst).value[j]
    {
      var prev := RowOf(alpha, t - 1);
      assert prev == Alpha(m, e, t - 1, normaliseFirst).value;
      AlphaStep(m, e, t, normaliseFirst);
      SetRow(alpha, t, ForwardStep(m, prev, e[t]));
      finite := NormaliseRow(alpha, t);
      t := t + 1;
    }
    if !finite {
      AlphaNoneStays(m, e, t - 1, T - 1, normaliseFirst);
    }
    forall k | 0 <= k < T && Alpha(m, e, k, normaliseFirst).Some?
      ensures RowOf(alpha, k) == Alpha(m, e, k, normaliseFirst).value
    {
      if k >= t {
        AlphaNoneStays(m, e, t - 1, k, normaliseFirst);
      }
    }
  }

  /** `filtrar_forward`: the last row of alpha, with row 0 left unnormalised. An empty run fails
      at `obs_secuencia[0]` and an unknown symbol at `obs_map`. */
  method FilterForward(m: Model, obs: seq<string>) returns (r: Result<Option<seq<real>>>)
    requires WellFormed(m)
    ensures r.Err? <==> Encode(m.symbols, obs).Err?
    ensures r.Err? ==> r.error == Encode(m.symbols, obs).error
    ensures r.Ok? ==> r.value == Alpha(m, Encode(m.symbols, obs).value, |obs| - 1, false)
  {
    var e :- Encode(m.symbols, obs);
    EncodeEmits(m, obs);
    var alpha, finite := ForwardTable(m, e, false);
    if finite {
      r := Ok(Some(RowOf(alpha, |e| - 1)));
    } else {
      r := Ok(None);
    }
  }

  /** `forward_pass`: every row of alpha, row 0 normalised too. */
  method ForwardPass(m: Model, obs: seq<string>) returns (r: Result<Option<seq<seq<real>>>>)
    requires WellFormed(m)
    ensures r.Err? <==> Encode(m.symbols, obs).Err?
    ensures r.Err? ==> r.error == Encode(m.symbols, obs).error
    ensures r.Ok? ==> var e := Encode(m.symbols, obs).value;
      && (r.value.Some? <==> Alpha(m, e, |e| - 1, true).Some?)
      && (r.value.Some? ==> |r.value.value| == |e|)
      && (r.value.Some? ==> forall t :: 0 <= t < |e| ==> Alpha(m, e, t, true) == Some(r.value.value[t]))
  {
    var e :- Encode(m.symbols, obs);
    EncodeEmits(m, obs);
    var alpha, finite := ForwardTable(m, e, true);
    if finite {
      forall t | 0 <= t < |e|
        ensures Alpha(m, e, t, true).Some?
      {
        if Alpha(m, e, t, true).None? {
          AlphaNoneStays(m, e, t, |e| - 1, true);
        }
      }
      r := Ok(Some(Rows(alpha)));
    } else {
      r := Ok(None);
    }
  }

  /** One pass of the outer loop of `backward_pass`: entry i of row t is BackStep of row t + 1
      at i. Every other row is kept. */
  method FillBackRow(m: Model, beta: array2<real>, t: nat, et: nat)
    requires WellFormed(m) && et < |m.b[0]|
    requires t + 1 < beta.Length0 && beta.Length1 == Size(m)
    modifies beta
    ensures RowOf(beta, t) == BackStep(m, old(RowOf(beta, t + 1)), et)
    ensures forall k, j :: 0 <= k < beta.Length0 && k != t && 0 <= j < beta.Length1 ==> beta[k, j] == old(beta[k, j])
  {
    hide Hadamard, Sum;
    var next := RowOf(beta, t + 1);
    for i := 0 to Size(m)
      invariant forall j :: 0 <= j < i ==> beta[t, j] == BackStep(m, next, et)[j]
      invariant forall k, j :: 0 <= k < beta.Length0 && k != t && 0 <= j < beta.Length1 ==> beta[k, j] == old(beta[k, j])
    {
      beta[t, i] := Sum(Hadamard(Hadamard(m.a[i], Column(m.b, et)), next));
    }
  }

  /** The loops of `backward_pass`: row T - 1 all ones, then each earlier row from the one after
      it, normalised. As in the forward passes, the loop stops at the first row that cannot be
      normalised. */
  method BackwardTable(m: Model, f: seq<nat>) returns (beta: array2<real>, finite: bool)
    requires WellFormed(m) && Emits(m, f)
    ensures fresh(beta) && beta.Length0 == |f| + 1 && beta.Length1 == Size(m)
    ensures finite <==> Beta(m, f, 0).Some?
    ensures forall t :: 0 <= t <= |f| && Beta(m, f, t).Some? ==> RowOf(beta, t) == Beta(m, f, t).value
  {
    hide Beta, BackStep, Rescale;
    var n, T := Size(m), |f| + 1;
    beta := new real[T, n]((_, _) => 0.0);
    SetRow(beta, T - 1, Ones(n));
    finite := true;
    var t := T - 1;
    while t > 0 && finite
      invariant 0 <= t <= T - 1
      invariant beta.Length0 == T && beta.Length1 == n
      invariant finite <==> Beta(m, f, t).Some?
      invariant forall k, j :: t <= k < T && 0 <= j < n && Beta(m, f, k).Some? ==>
        beta[k, j] == Beta(m, f, k).value[j]
    {
      assert RowOf(beta, t) == Beta(m, f, t).value;
      BetaStep(m, f, t - 1);
      FillBackRow(m, beta, t - 1, f[t - 1]);
      finite := NormaliseRow(beta, t - 1);
      t := t - 1;
    }
    if !finite {
      BetaNoneStays(m, f, t, 0);
    }
    forall k | 0 <= k < T && Beta(m, f, k).Some?
      ensures RowOf(beta, k) == Beta(m, f, k).value
    {
      if k < t {
        BetaNoneStays(m, f, t, k);
      }
    }
  }

  /** `backward_pass`: every row of beta. Only the observations after the first are looked up
      (from the last one back); an empty run fails at `beta[T-1, :]` with an IndexError. */
  method BackwardPass(m: Model, obs: seq<string>) returns (r: Result<Option<seq<seq<real>>>>)
    requires WellFormed(m)
    ensures r.Err? <==> obs == [] || exists t :: 1 <= t < |obs| && obs[t] !in m.symbols
    ensures r.Err? ==> r.error == if obs == [] then IndexError else KeyError
    ensures r.Ok? ==> var f := EncodeAll(m.symbols, obs[1..]).value;
      && (r.value.Some? <==> Beta(m, f, 0).Some?)
      && (r.value.Some? ==> |r.value.value| == |obs|)
      && (r.value.Some? ==> forall t :: 0 <= t < |obs| ==> Beta(m, f, t) == Some(r.value.value[t]))
  {
    if obs == [] {
      return Err(IndexError);
    }
    assert forall t :: 1 <= t < |obs| ==> obs[t] == obs[1..][t - 1];
    var f :- EncodeAll(m.symbols, obs[1..]);
    var beta, finite := BackwardTable(m, f);
    if finite {
      forall t | 0 <= t <= |f|
        ensures Beta(m, f, t).Some?
      {
        if Beta(m, f, t).None? {
          BetaNoneStays(m, f, t, 0);
        }
      }
      r := Ok(Some(Rows(beta)));
    } else {
      r := Ok(None);
    }
  }

  /** Smoothing the last time step of the two passes gives back the last forward row. */
  lemma SmoothedLastIsFiltered(m: Model, e: seq<nat>, alpha: seq<seq<real>>, beta: seq<seq<real>>)
    requires WellFormed(m) && Emits(m, e) && |e| > 0
    requires |alpha| == |beta| == |e| && forall t :: 0 <= t < |e| ==> |alpha[t]| == |beta[t]|
    requires forall t :: 0 <= t < |e| ==> Alpha(m, e, t, true) == Some(alpha[t])
    requires forall t :: 0 <= t < |e| ==> Beta(m, e[1..], t) == Some(beta[t])
    ensures Smooth(alpha, beta, |e| - 1) == Ok(Some(alpha[|e| - 1]))
  {
    var T := |e|;
    assert Beta(m, e[1..], T - 1) == Some(Ones(Size(m)));
    assert Alpha(m, e, T - 1, true) == Some(alpha[T - 1]);
    SmoothAtLast(alpha, beta, T - 1);
  }
}
