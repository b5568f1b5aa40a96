/** The Beta-Bernoulli learner of 001_Apren_Bayesiano.py: a Beta(a, b) belief about a coin's
    probability of success, updated by counting successes and failures, with the Beta density
    normalised through factorials. */
module BetaLearning {
  import opened Wrappers
  import opened Reals

  function Factorial(n: nat): (r: nat)
    ensures r >= 1
  {
    if n == 0 then 1 else n * Factorial(n - 1)
  }

  /** `factorial(n)`: ValueError for a negative argument, n! otherwise. */
  function PyFactorial(n: int): (r: Result<nat>)
    ensures r.Err? <==> n < 0
    ensures r.Err? ==> r.error == ValueError
    ensures r.Ok? ==> r.value == Factorial(n) && r.value >= n
  {
    if n < 0 then Err(ValueError)
    else
      FactorialAtLeast(n);
      Ok(Factorial(n))
  }

  lemma {:induction false} FactorialAtLeast(n: nat)
    ensures Factorial(n) >= n
  {
    if n > 1 {
      FactorialAtLeast(n - 1);
      assert n * Factorial(n - 1) >= n * 1;
    }
  }

  /** The guarded expression of `beta_pdf_sin_scipy`, evaluated left to right:
      (a + b - 1)! / ((a - 1)! (b - 1)!), or the ValueError of the first factorial that raises. */
  function Ratio(a: int, b: int): (r: Result<real>)
    ensures r.Err? <==> a < 1 || b < 1
    ensures r.Err? ==> r.error == ValueError
    ensures r.Ok? ==> r.value == Factorial(a + b - 1) as real / (Factorial(a - 1) * Factorial(b - 1)) as real
  {
    var top :- PyFactorial(a + b - 1);
    var left :- PyFactorial(a - 1);
    var right :- PyFactorial(b - 1);
    Ok(top as real / (left * right) as real)
  }

  /** `normalizacion`, the coefficient 1 / B(a, b): the ratio when it is defined, and 1.0 from
      either arm of the `except` branch otherwise. */
  function Coefficient(a: int, b: int): (r: real)
    ensures r > 0.0
  {
    match Ratio(a, b)
    case Ok(c) => c
    case Err(_) => if a == 1 && b == 1 then 1.0 else 1.0
  }

  /** Whenever a < 1 or b < 1 the coefficient falls back to 1.0, and the `a == 1 and b == 1` arm
      never runs, because factorial(0) does not raise. */
  lemma Fallback(a: int, b: int)
    ensures Ratio(a, b).Err? ==> !(a == 1 && b == 1)
    ensures a < 1 || b < 1 ==> Coefficient(a, b) == 1.0
    ensures a >= 1 && b >= 1 ==> Coefficient(a, b) == Ratio(a, b).value
  {
  }

  /** The coefficient is symmetric in its two parameters. */
  lemma CoefficientSymmetric(a: int, b: int)
    ensures Coefficient(a, b) == Coefficient(b, a)
  {
    if a >= 1 && b >= 1 {
      assert Factorial(a - 1) * Factorial(b - 1) == Factorial(b - 1) * Factorial(a - 1);
    }
  }

  /** Beta(a, 1) has coefficient a; in particular the uniform Beta(1, 1) has coefficient 1. */
  lemma CoefficientOfOne(a: int)
    requires a >= 1
    ensures Coefficient(a, 1) == a as real
  {
    hide Coefficient, Factorial;
    var l := Factorial(a - 1);
    FactorialStep(a - 1);
    CoefficientValue(a, 1);
    CastMul(a, l);
    RatioOfOne(a as real, l as real);
  }

  lemma RatioOfOne(t: real, y: real)
    requires y > 0.0
    ensures (t * y) / (y * 1.0) == t
  {
  }

  /** Raising a by one multiplies the coefficient by (a + b) / a. */
  lemma CoefficientStep(a: int, b: int)
    requires a >= 1 && b >= 1
    ensures Coefficient(a + 1, b) == Coefficient(a, b) * (a + b) as real / a as real
  {
    hide Coefficient, Factorial, Ratio, PyFactorial;
    var n, l, r := Factorial(a + b - 1), Factorial(a - 1), Factorial(b - 1);
    var x, y, z, s, t := n as real, l as real, r as real, (a + b) as real, a as real;
    CoefficientValue(a, b);
    CoefficientValue(a + 1, b);
    FactorialStep(a + b - 1);
    FactorialStep(a - 1);
    CastMul(a + b, n);
    CastMul(a, l);
    assert Coefficient(a + 1, b) == (s * x) / ((t * y) * z);
    FractionStep(x, y, z, s, t);
  }

  /** The coefficient for parameters at least 1, over reals. */
  lemma CoefficientValue(a: int, b: int)
    requires a >= 1 && b >= 1
    ensures Coefficient(a, b) == Factorial(a + b - 1) as real / (Factorial(a - 1) as real * Factorial(b - 1) as real)
  {
    hide Factorial;
    var l, r := Factorial(a - 1), Factorial(b - 1);
    assert Coefficient(a, b) == Factorial(a + b - 1) as real / (l * r) as real;
    CastMul(l, r);
  }

  lemma FactorialStep(n: nat)
    ensures Factorial(0) == 1
    ensures Factorial(n + 1) == (n + 1) * Factorial(n)
  {
  }

  /** Converting a product of integers to a real multiplies the converted factors. */
  lemma {:induction false} CastMul(i: int, j: nat)
    ensures (i * j) as real == i as real * j as real
  {
    if j > 0 {
      CastMul(i, j - 1);
      assert i * j == i * (j - 1) + i;
    }
  }

  lemma FractionStep(x: real, y: real, z: real, s: real, t: real)
    requires y > 0.0 && z > 0.0 && t > 0.0
    ensures (s * x) / ((t * y) * z) == (x / (y * z)) * s / t
  {
  }

  /** `np.power(x, k)` for an integer exponent: a repeated product, its reciprocal for a negative
      exponent. */
  function Pow(x: real, k: int): (r: real)
    requires k >= 0 || x != 0.0
    ensures x != 0.0 ==> r != 0.0
    decreases if k < 0 then 1 - k else k
  {
    if k == 0 then 1.0
    else if k > 0 then Mul(x, Pow(x, k - 1))
    else 1.0 / Pow(x, -k)
  }

  lemma {:induction false} PowNonNegative(x: real, k: nat)
    requires x >= 0.0
    ensures Pow(x, k) >= 0.0
  {
    if k > 0 {
      PowNonNegative(x, k - 1);
      MulNonNegative(x, Pow(x, k - 1));
    }
  }

  /** Powers add their exponents. */
  lemma {:induction false} PowAdd(x: real, m: nat, n: nat)
    ensures Pow(x, m + n) == Mul(Pow(x, m), Pow(x, n))
    decreases m
  {
    if m > 0 {
      PowAdd(x, m - 1, n);
      assert Pow(x, m + n) == Mul(x, Pow(x, m - 1 + n));
      MulAssociative(x, Pow(x, m - 1), Pow(x, n));
    }
  }

  /** `beta_pdf_sin_scipy(theta, a, b)`: coefficient * theta^(a-1) * (1 - theta)^(b-1). */
  function Pdf(theta: real, a: int, b: int): (r: real)
    requires a >= 1 || theta != 0.0
    requires b >= 1 || theta != 1.0
    ensures theta == 0.0 && a > 1 ==> r == 0.0
    ensures theta == 1.0 && b > 1 ==> r == 0.0
  {
    Mul(Mul(Coefficient(a, b), Pow(theta, a - 1)), Pow(1.0 - theta, b - 1))
  }

  /** On [0, 1] and with parameters at least 1 the density is non-negative. */
  lemma PdfNonNegative(theta: real, a: int, b: int)
    requires 0.0 <= theta <= 1.0 && a >= 1 && b >= 1
    ensures Pdf(theta, a, b) >= 0.0
  {
    var c, p, q := Coefficient(a, b), Pow(theta, a - 1), Pow(1.0 - theta, b - 1);
    PowNonNegative(theta, a - 1);
    PowNonNegative(1.0 - theta, b - 1);
    MulNonNegative(c, p);
    MulNonNegative(Mul(c, p), q);
  }

  /** The prior Beta(1, 1) is the uniform density: 1 at every theta. */
  lemma UniformPrior(theta: real)
    ensures Pdf(theta, 1, 1) == 1.0
  {
    CoefficientOfOne(1);
  }

  /** Conjugacy: after s successes and f failures the density is the prior density times the
      likelihood theta^s (1 - theta)^f, up to the ratio of the coefficients. */
  lemma Conjugate(theta: real, a: int, b: int, s: nat, f: nat)
    requires a >= 1 && b >= 1
    ensures Pdf(theta, a + s, b + f)
      == Mul(Mul(Coefficient(a + s, b + f) / Coefficient(a, b), Pdf(theta, a, b)), Mul(Pow(theta, s), Pow(1.0 - theta, f)))
  {
    var c, c' := Coefficient(a, b), Coefficient(a + s, b + f);
    var p, q := Pow(theta, a - 1), Pow(1.0 - theta, b - 1);
    var ls, lf := Pow(theta, s), Pow(1.0 - theta, f);
    assert Pdf(theta, a + s, b + f) == Mul(Mul(c', Mul(p, ls)), Mul(q, lf)) by {
      PowAdd(theta, a - 1, s);
      PowAdd(1.0 - theta, b - 1, f);
      assert a + s - 1 == (a - 1) + s && b + f - 1 == (b - 1) + f;
    }
    hide Pdf, Pow, Coefficient;
    Regroup(c, c', p, q, ls, lf);
  }

  /** The rearrangement behind conjugacy, over plain reals. */
  lemma Regroup(c: real, c': real, p: real, q: real, ls: real, lf: real)
    requires c > 0.0
    ensures Mul(Mul(c', Mul(p, ls)), Mul(q, lf)) == Mul(Mul(c' / c, Mul(Mul(c, p), q)), Mul(ls, lf))
  {
    assert c' == (c' / c) * c;
  }

  /** EXITOS_OBSERVADOS: the number of successes among the Bernoulli draws. */
  function Successes(draws: seq<bool>): (r: nat)
    ensures r <= |draws|
  {
    if draws == [] then 0 else Successes(draws[..|draws| - 1]) + (if draws[|draws| - 1] then 1 else 0)
  }

  /** POSTERIOR_A and POSTERIOR_B: the prior parameters plus the successes and the failures
      LANZAMIENTOS - EXITOS_OBSERVADOS. */
  function Posterior(priorA: int, priorB: int, draws: seq<bool>): (r: (int, int))
    ensures r.0 >= priorA && r.1 >= priorB
    ensures r.0 + r.1 == priorA + priorB + |draws|
  {
    var successes := Successes(draws);
    (priorA + successes, priorB + (|draws| - successes))
  }

  /** Updating on two batches of draws in turn is updating on all of them at once. */
  lemma {:induction false} PosteriorSequential(priorA: int, priorB: int, first: seq<bool>, second: seq<bool>)
    ensures var (a, b) := Posterior(priorA, priorB, first);
      Posterior(a, b, second) == Posterior(priorA, priorB, first + second)
  {
    SuccessesAppend(first, second);
  }

  lemma {:induction false} SuccessesAppend(x: seq<bool>, y: seq<bool>)
    ensures Successes(x + y) == Successes(x) + Successes(y)
    decreases |y|
  {
    if y == [] {
      assert x + y == x;
    } else {
      assert (x + y)[..|x + y| - 1] == x + y[..|y| - 1];
      SuccessesAppend(x, y[..|y| - 1]);
    }
  }

  /** `media_posterior = a / (a + b)` on numpy integers: a zero denominator gives nan or inf
      (with a warning, not an exception), which is None here. */
  function Mean(a: int, b: int): (r: Option<real>)
    ensures r.None? <==> a + b == 0
    ensures r.Some? ==> r.value * (a + b) as real == a as real
    ensures a > 0 && b > 0 ==> r.Some? && 0.0 < r.value < 1.0
  {
    if a + b == 0 then None else Some(a as real / (a + b) as real)
  }

  /** The mediant of two fractions lies between them. */
  lemma Mediant(p: real, q: real, r: real, t: real)
    requires q > 0.0 && t > 0.0 && p / q <= r / t
    ensures p / q <= (p + r) / (q + t) <= r / t
  {
    var u, v := p / q, r / t;
    assert p == u * q && r == v * t;
    assert p + r >= u * (q + t) by {
      assert v * t >= u * t;
    }
    assert p + r <= v * (q + t) by {
      assert u * q <= v * q;
    }
  }

  /** The posterior mean is (a + successes) / (a + b + draws). */
  lemma MeanValue(priorA: nat, priorB: nat, draws: seq<bool>)
    requires priorA + priorB > 0
    ensures var (a, b) := Posterior(priorA, priorB, draws);
      Mean(a, b) == Some((priorA as real + Successes(draws) as real) / ((priorA + priorB) as real + |draws| as real))
  {
    hide Successes;
  }

  /** With a positive prior and at least one draw, the posterior mean lies between the prior
      mean and the observed frequency of successes. */
  lemma MeanBetween(priorA: nat, priorB: nat, draws: seq<bool>)
    requires priorA > 0 && priorB > 0 && draws != []
    ensures var (a, b) := Posterior(priorA, priorB, draws);
      var prior := priorA as real / (priorA + priorB) as real;
      var frequency := Successes(draws) as real / |draws| as real;
      var mean := Mean(a, b).value;
      (prior <= frequency ==> prior <= mean <= frequency) && (frequency <= prior ==> frequency <= mean <= prior)
  {
    var s, n := Successes(draws) as real, |draws| as real;
    var pa, pn := priorA as real, (priorA + priorB) as real;
    hide Mean, Posterior, Successes;
    MeanValue(priorA, priorB, draws);
    MediantBetween(pa, pn, s, n);
  }

  /** Either way round, the mediant lies between the two fractions. */
  lemma MediantBetween(p: real, q: real, r: real, t: real)
    requires q > 0.0 && t > 0.0
    ensures p / q <= r / t ==> p / q <= (p + r) / (q + t) <= r / t
    ensures r / t <= p / q ==> r / t <= (p + r) / (q + t) <= p / q
  {
    if p / q <= r / t {
      Mediant(p, q, r, t);
    }
    if r / t <= p / q {
      Mediant(r, t, p, q);
      assert (r + p) / (t + q) == (p + r) / (q + t);
    }
  }

  /** The script's prior Beta(1, 1) and its hundred draws: the posterior parameters add up to
      102 and the posterior mean is (1 + successes) / 102. */
  lemma ScriptPosterior(draws: seq<bool>)
    requires |draws| == 100
    ensures Posterior(1, 1, draws).0 + Posterior(1, 1, draws).1 == 102
    ensures Mean(Posterior(1, 1, draws).0, Posterior(1, 1, draws).1) == Some((1 + Successes(draws)) as real / 102.0)
  {
  }
}
