/** Hidden Markov models and Viterbi decoding, as the temporal-reasoning and learning scripts
    define them (003_Fil_Suav_Pred_Exp.py, both 005_Mod_Oculto_Markov.py scripts and
    008_Reconocimiento_Habla.py share the same decoder). */
module Hmm {
  import opened Wrappers
  import opened Reals
  import opened Vectors

  /** A model as the scripts set one up: the state names (ESTADOS), the column of each
      observation symbol (obs_map), the transition matrix A, the emission matrix B and the
      initial distribution Pi. */
  datatype Model = Model(
    states: seq<string>,
    symbols: map<string, nat>,
    a: seq<seq<real>>,
    b: seq<seq<real>>,
    pi: seq<real>)

  predicate WellFormed(m: Model) {
    && |m.states| > 0
    && |m.a| == |m.states| && Matrix(m.a, |m.states|)
    && |m.b| == |m.states| && Matrix(m.b, |m.b[0]|)
    && |m.pi| == |m.states|
    && (forall s :: s in m.symbols ==> m.symbols[s] < |m.b[0]|)
  }

  /** N_ESTADOS. */
  function Size(m: Model): nat {
    |m.states|
  }

  /** Every encoded observation names a column of B. */
  predicate Emits(m: Model, e: seq<nat>)
    requires WellFormed(m)
  {
    forall t :: 0 <= t < |e| ==> e[t] < |m.b[0]|
  }

  /** Every probability of the model is non-negative. */
  predicate NonNegativeModel(m: Model) {
    && NonNegative(m.pi)
    && (forall i :: 0 <= i < |m.a| ==> NonNegative(m.a[i]))
    && (forall i :: 0 <= i < |m.b| ==> NonNegative(m.b[i]))
  }

  /** The columns of a run of observations, looked up one after the other. */
  function EncodeAll(symbols: map<string, nat>, obs: seq<string>): (r: Result<seq<nat>>)
    ensures r.Err? <==> exists t :: 0 <= t < |obs| && obs[t] !in symbols
    ensures r.Err? ==> r.error == KeyError
    ensures r.Ok? ==> |r.value| == |obs| && forall t :: 0 <= t < |obs| ==> r.value[t] == symbols[obs[t]]
  {
    if obs == [] then Ok([])
    else
      var head :- Get(symbols, obs[0]);
      var rest :- EncodeAll(symbols, obs[1..]);
      assert forall t :: 1 <= t < |obs| ==> obs[t] == obs[1..][t - 1];
      Ok([head] + rest)
  }

  /** The lookups of a decoder: `obs_secuencia[0]` of an empty sequence is an IndexError, and
      an unknown symbol a KeyError. */
  function Encode(symbols: map<string, nat>, obs: seq<string>): (r: Result<seq<nat>>)
    ensures r.Err? <==> obs == [] || exists t :: 0 <= t < |obs| && obs[t] !in symbols
    ensures r.Err? ==> r.error == if obs == [] then IndexError else KeyError
    ensures r.Ok? ==> |r.value| == |obs| && forall t :: 0 <= t < |obs| ==> r.value[t] == symbols[obs[t]]
  {
    if obs == [] then Err(IndexError) else EncodeAll(symbols, obs)
  }

  /** An encoding by a well-formed model's map only names columns of B. */
  lemma EncodeEmits(m: Model, obs: seq<string>)
    requires WellFormed(m) && Encode(m.symbols, obs).Ok?
    ensures Emits(m, Encode(m.symbols, obs).value)
  {
  }

  /** `delta[t-1, :] * A[:, j]`: the best score of each predecessor times its move to j. */
  function Trans(m: Model, prev: seq<real>, j: nat): (r: seq<real>)
    requires WellFormed(m) && |prev| == Size(m) && j < Size(m)
    ensures |r| == Size(m)
  {
    seq(Size(m), i requires 0 <= i < Size(m) => Mul(prev[i], m.a[i][j]))
  }

  /** One step of the recursion for every state j: `B[j, e_t] * max(trans_probs)`. */
  function Advance(m: Model, prev: seq<real>, et: nat): (r: seq<real>)
    requires WellFormed(m) && |prev| == Size(m) && et < |m.b[0]|
    ensures |r| == Size(m)
  {
    seq(Size(m), j requires 0 <= j < Size(m) => Mul(m.b[j][et], Max(Trans(m, prev, j))))
  }

  /** Row t of delta: `Pi * B[:, e0]` at t = 0, then one step of the recursion. With
      non-negative parameters every entry is a non-negative score. */
  function DeltaRow(m: Model, e: seq<nat>, t: nat): (r: seq<real>)
    requires WellFormed(m) && Emits(m, e) && t < |e|
    ensures |r| == Size(m)
    ensures NonNegativeModel(m) ==> NonNegative(r)
    decreases t
  {
    if t == 0 then
      FirstRowNonNegative(m, e[0]);
      Hadamard(m.pi, Column(m.b, e[0]))
    else
      var prev := DeltaRow(m, e, t - 1);
      AdvanceNonNegative(m, prev, e[t]);
      Advance(m, prev, e[t])
  }

  lemma FirstRowNonNegative(m: Model, e0: nat)
    requires WellFormed(m) && e0 < |m.b[0]|
    ensures NonNegativeModel(m) ==> NonNegative(Hadamard(m.pi, Column(m.b, e0)))
  {
    if NonNegativeModel(m) {
      forall j | 0 <= j < Size(m)
        ensures Hadamard(m.pi, Column(m.b, e0))[j] >= 0.0
      {
        assert NonNegative(m.b[j]);
        MulNonNegative(m.pi[j], m.b[j][e0]);
      }
    }
  }

  lemma AdvanceNonNegative(m: Model, prev: seq<real>, et: nat)
    requires WellFormed(m) && |prev| == Size(m) && et < |m.b[0]|
    ensures NonNegativeModel(m) && NonNegative(prev) ==> NonNegative(Advance(m, prev, et))
  {
    if NonNegativeModel(m) && NonNegative(prev) {
      forall j | 0 <= j < Size(m)
        ensures Advance(m, prev, et)[j] >= 0.0
      {
        var tr := Trans(m, prev, j);
        assert NonNegative(m.a[0]) && NonNegative(m.b[j]);
        assert tr[0] == Mul(prev[0], m.a[0][j]);
        MulNonNegative(prev[0], m.a[0][j]);
        assert Max(tr) >= tr[0];
        MulNonNegative(m.b[j][et], Max(tr));
      }
    }
  }

  /** Row t of psi: zeros at t = 0, then the first predecessor attaining the maximum. */
  function PsiRow(m: Model, e: seq<nat>, t: nat): (r: seq<nat>)
    requires WellFormed(m) && Emits(m, e) && t < |e|
    ensures |r| == Size(m) && forall j :: 0 <= j < Size(m) ==> r[j] < Size(m)
  {
    if t == 0 then seq(Size(m), _ => 0)
    else
      var prev := DeltaRow(m, e, t - 1);
      seq(Size(m), j requires 0 <= j < Size(m) => ArgMax(Trans(m, prev, j)))
  }

  /** The decoded state at time t: the first best final state at T-1, and before that the
      backpointer of the state after. */
  function State(m: Model, e: seq<nat>, t: nat): (s: nat)
    requires WellFormed(m) && Emits(m, e) && t < |e|
    ensures s < Size(m)
    decreases |e| - t
  {
    if t == |e| - 1 then ArgMax(DeltaRow(m, e, t))
    else PsiRow(m, e, t + 1)[State(m, e, t + 1)]
  }

  /** `secuencia_optima`. */
  function DecodedPath(m: Model, e: seq<nat>): (p: seq<nat>)
    requires WellFormed(m) && Emits(m, e)
    ensures |p| == |e| && forall t :: 0 <= t < |e| ==> p[t] == State(m, e, t)
  {
    seq(|e|, t requires 0 <= t < |e| => State(m, e, t))
  }

  /** `[ESTADOS[i] for i in secuencia_optima]`: every name is a state of the model. */
  function Names(m: Model, p: seq<nat>): (r: seq<string>)
    requires forall t :: 0 <= t < |p| ==> p[t] < |m.states|
    ensures |r| == |p| && forall t :: 0 <= t < |p| ==> r[t] in m.states
  {
    seq(|p|, t requires 0 <= t < |p| => m.states[p[t]])
  }

  predicate ValidPath(m: Model, p: seq<nat>) {
    forall t :: 0 <= t < |p| ==> p[t] < |m.states|
  }

  /** The probability of a state path jointly with the first |p| observations, multiplied in
      the order the decoder multiplies. */
  function PathProb(m: Model, e: seq<nat>, p: seq<nat>): real
    requires WellFormed(m) && Emits(m, e) && 0 < |p| <= |e| && ValidPath(m, p)
    decreases |p|
  {
    var k := |p| - 1;
    if k == 0 then Mul(m.pi[p[0]], m.b[p[0]][e[0]])
    else Mul(m.b[p[k]][e[k]], Mul(PathProb(m, e, p[..k]), m.a[p[k - 1]][p[k]]))
  }

  /** delta[t][j] bounds the probability of every path that ends in j at time t. */
  lemma {:induction false} DeltaBoundsPaths(m: Model, e: seq<nat>, p: seq<nat>)
    requires WellFormed(m) && NonNegativeModel(m) && Emits(m, e)
    requires 0 < |p| <= |e| && ValidPath(m, p)
    ensures PathProb(m, e, p) <= DeltaRow(m, e, |p| - 1)[p[|p| - 1]]
    decreases |p|
  {
    hide Mul;
    if |p| > 1 {
      var k := |p| - 1;
      DeltaBoundsPaths(m, e, p[..k]);
      BoundStep(m, e, p);
    }
  }

  /** The inductive step: a bound on the path without its last state carries over. */
  lemma BoundStep(m: Model, e: seq<nat>, p: seq<nat>)
    requires WellFormed(m) && NonNegativeModel(m) && Emits(m, e)
    requires 1 < |p| <= |e| && ValidPath(m, p)
    requires ValidPath(m, p[..|p| - 1])
    requires PathProb(m, e, p[..|p| - 1]) <= DeltaRow(m, e, |p| - 2)[p[|p| - 2]]
    ensures PathProb(m, e, p) <= DeltaRow(m, e, |p| - 1)[p[|p| - 1]]
  {
    hide Mul, PathProb, DeltaRow;
    var k := |p| - 1;
    var i, j := p[k - 1], p[k];
    var prev := DeltaRow(m, e, k - 1);
    var x := PathProb(m, e, p[..k]);
    var trans := Trans(m, prev, j);
    assert m.a[i][j] >= 0.0 && m.b[j][e[k]] >= 0.0 by {
      assert NonNegative(m.a[i]) && NonNegative(m.b[j]);
    }
    assert Mul(prev[i], m.a[i][j]) <= Max(trans) by {
      assert trans[i] == Mul(prev[i], m.a[i][j]);
    }
    ChainStep(x, prev[i], m.a[i][j], Max(trans), m.b[j][e[k]]);
    DeltaStep(m, e, k, j);
    PathProbStep(m, e, p);
  }

  /** x <= d and d·a <= mx give c·(x·a) <= c·mx for non-negative a and c. */
  lemma ChainStep(x: real, d: real, a: real, mx: real, c: real)
    requires x <= d && Mul(d, a) <= mx && a >= 0.0 && c >= 0.0
    ensures Mul(c, Mul(x, a)) <= Mul(c, mx)
  {
    MulMonotone(x, d, a);
    MulMonotone(Mul(x, a), mx, c);
  }

  /** The first factor of a path's probability. */
  lemma PathProbFirst(m: Model, e: seq<nat>, p: seq<nat>)
    requires WellFormed(m) && Emits(m, e) && 1 == |p| <= |e| && ValidPath(m, p)
    ensures PathProb(m, e, p) == Mul(m.pi[p[0]], m.b[p[0]][e[0]])
  {
  }

  /** The last factor of a path's probability. */
  lemma PathProbStep(m: Model, e: seq<nat>, p: seq<nat>)
    requires WellFormed(m) && Emits(m, e) && 1 < |p| <= |e| && ValidPath(m, p)
    ensures ValidPath(m, p[..|p| - 1])
    ensures var k := |p| - 1;
      PathProb(m, e, p) == Mul(m.b[p[k]][e[k]], Mul(PathProb(m, e, p[..k]), m.a[p[k - 1]][p[k]]))
  {
  }

  /** The first row of delta. */
  lemma DeltaFirst(m: Model, e: seq<nat>)
    requires WellFormed(m) && Emits(m, e) && 0 < |e|
    ensures DeltaRow(m, e, 0) == Hadamard(m.pi, Column(m.b, e[0]))
    ensures forall j :: 0 <= j < Size(m) ==> DeltaRow(m, e, 0)[j] == Mul(m.pi[j], m.b[j][e[0]])
  {
  }

  /** One step of the delta recurrence, for a single entry. */
  lemma DeltaStep(m: Model, e: seq<nat>, t: nat, j: nat)
    requires WellFormed(m) && Emits(m, e) && 0 < t < |e| && j < Size(m)
    ensures DeltaRow(m, e, t)[j] == Mul(m.b[j][e[t]], Max(Trans(m, DeltaRow(m, e, t - 1), j)))
  {
  }

  /** The first row of psi is all zeros, and later entries are the first best predecessor. */
  lemma PsiEntry(m: Model, e: seq<nat>, t: nat, j: nat)
    requires WellFormed(m) && Emits(m, e) && t < |e| && j < Size(m)
    ensures t == 0 ==> PsiRow(m, e, t)[j] == 0
    ensures t > 0 ==> PsiRow(m, e, t)[j] == ArgMax(Trans(m, DeltaRow(m, e, t - 1), j))
  {
  }

  /** The best predecessor's score, moved to j, is the maximum of Trans. */
  lemma TransMax(m: Model, prev: seq<real>, i: nat, j: nat)
    requires WellFormed(m) && |prev| == Size(m) && i < Size(m) && j < Size(m)
    requires i == ArgMax(Trans(m, prev, j))
    ensures Max(Trans(m, prev, j)) == Mul(prev[i], m.a[i][j])
  {
  }

  /** The decoded state at the last time is the first best final state. */
  lemma LastState(m: Model, e: seq<nat>)
    requires WellFormed(m) && Emits(m, e) && 0 < |e|
    ensures State(m, e, |e| - 1) == ArgMax(DeltaRow(m, e, |e| - 1))
  {
  }

  /** The decoded state at t - 1 is the backpointer stored for the decoded state at t. */
  lemma StateStep(m: Model, e: seq<nat>, t: nat)
    requires WellFormed(m) && Emits(m, e) && 0 < t < |e|
    ensures State(m, e, t - 1) == PsiRow(m, e, t)[State(m, e, t)]
  {
  }

  /** The decoded path attains delta at every step. */
  lemma {:induction false} DecodedPathAttains(m: Model, e: seq<nat>, t: nat)
    requires WellFormed(m) && Emits(m, e) && t < |e|
    ensures PathProb(m, e, DecodedPath(m, e)[..t + 1]) == DeltaRow(m, e, t)[State(m, e, t)]
  {
    hide DeltaRow, State, PsiRow, PathProb, DecodedPath, Mul, Trans;
    var q := DecodedPath(m, e);
    var r := q[..t + 1];
    if t == 0 {
      assert r[0] == State(m, e, 0);
      DeltaFirst(m, e);
      PathProbFirst(m, e, r);
    } else {
      DecodedPathAttains(m, e, t - 1);
      assert r[..t] == q[..t];
      var i, j := State(m, e, t - 1), State(m, e, t);
      assert r[t - 1] == i && r[t] == j;
      PathProbStep(m, e, r);
      StateStep(m, e, t);
      PsiEntry(m, e, t, j);
      TransMax(m, DeltaRow(m, e, t - 1), i, j);
      DeltaStep(m, e, t, j);
    }
  }

  /** Viterbi's answer: no state path explains the observations better than the decoded one. */
  lemma MostProbablePath(m: Model, e: seq<nat>, p: seq<nat>)
    requires WellFormed(m) && NonNegativeModel(m) && Emits(m, e)
    requires |p| == |e| > 0 && ValidPath(m, p)
    ensures PathProb(m, e, p) <= PathProb(m, e, DecodedPath(m, e))
  {
    hide DeltaRow, State, PathProb, DecodedPath, Mul;
    var T := |e|;
    DeltaBoundsPaths(m, e, p);
    DecodedPathAttains(m, e, T - 1);
    LastState(m, e);
    assert DecodedPath(m, e)[..T] == DecodedPath(m, e);
  }

  /** Row t of a two-dimensional array. */
  function RowOf<T>(g: array2<T>, t: nat): (r: seq<T>)
    requires t < g.Length0
    reads g
    ensures |r| == g.Length1 && forall i :: 0 <= i < g.Length1 ==> r[i] == g[t, i]
  {
    seq(g.Length1, i requires 0 <= i < g.Length1 reads g => g[t, i])
  }

  /** The delta and psi arrays hold the rows of the recurrence. */
  ghost predicate Tables(m: Model, e: seq<nat>, delta: array2<real>, psi: array2<nat>)
    requires WellFormed(m) && Emits(m, e)
    reads delta, psi
  {
    && delta.Length0 == |e| && delta.Length1 == Size(m)
    && psi.Length0 == |e| && psi.Length1 == Size(m)
    && (forall t, j :: 0 <= t < |e| && 0 <= j < Size(m) ==> delta[t, j] == DeltaRow(m, e, t)[j])
    && (forall t, j :: 0 <= t < |e| && 0 <= j < Size(m) ==> psi[t, j] == PsiRow(m, e, t)[j])
  }

  /** The initialisation and recursion of the decoders: `delta` and `psi` filled row by row. */
  method ViterbiTables(m: Model, e: seq<nat>) returns (delta: array2<real>, psi: array2<nat>)
    requires WellFormed(m) && Emits(m, e) && |e| > 0
    ensures fresh(delta) && fresh(psi) && Tables(m, e, delta, psi)
  {
    hide DeltaRow, PsiRow, Mul, Trans, ArgMax;
    var n, T := |m.states|, |e|;
    delta := new real[T, n]((_, _) => 0.0);
    psi := new nat[T, n]((_, _) => 0);
    DeltaFirst(m, e);
    for j := 0 to n
      invariant forall i :: 0 <= i < j ==> delta[0, i] == DeltaRow(m, e, 0)[i]
      invariant forall k, i :: 0 <= k < T && 0 <= i < n ==> psi[k, i] == 0
    {
      delta[0, j] := Mul(m.pi[j], m.b[j][e[0]]);
    }
    forall j | 0 <= j < n
      ensures PsiRow(m, e, 0)[j] == 0
    {
      PsiEntry(m, e, 0, j);
    }
    for t := 1 to T
      invariant forall k, j :: 0 <= k < t && 0 <= j < n ==> delta[k, j] == DeltaRow(m, e, k)[j]
      invariant forall k, j :: 0 <= k < t && 0 <= j < n ==> psi[k, j] == PsiRow(m, e, k)[j]
    {
      assert RowOf(delta, t - 1) == DeltaRow(m, e, t - 1);
      FillRow(m, e, t, delta, psi);
    }
  }

  /** One pass of the recursion loop: row t of delta and psi from row t - 1 of delta; the other
      rows are left as they were. */
  method FillRow(m: Model, e: seq<nat>, t: nat, delta: array2<real>, psi: array2<nat>)
    requires WellFormed(m) && Emits(m, e) && 0 < t < |e|
    requires delta.Length0 == |e| && delta.Length1 == Size(m)
    requires psi.Length0 == |e| && psi.Length1 == Size(m)
    requires RowOf(delta, t - 1) == DeltaRow(m, e, t - 1)
    modifies delta, psi
    ensures forall j :: 0 <= j < Size(m) ==> delta[t, j] == DeltaRow(m, e, t)[j]
    ensures forall j :: 0 <= j < Size(m) ==> psi[t, j] == PsiRow(m, e, t)[j]
    ensures forall k, j :: 0 <= k < |e| && k != t && 0 <= j < Size(m) ==> delta[k, j] == old(delta[k, j])
    ensures forall k, j :: 0 <= k < |e| && k != t && 0 <= j < Size(m) ==> psi[k, j] == old(psi[k, j])
  {
    hide DeltaRow, PsiRow, Mul, Trans, ArgMax;
    var n := |m.states|;
    var prev := RowOf(delta, t - 1);
    for j := 0 to n
      invariant forall k, i :: 0 <= k < |e| && k != t && 0 <= i < n ==> delta[k, i] == old(delta[k, i])
      invariant forall k, i :: 0 <= k < |e| && k != t && 0 <= i < n ==> psi[k, i] == old(psi[k, i])
      invariant forall i :: 0 <= i < j ==> delta[t, i] == DeltaRow(m, e, t)[i]
      invariant forall i :: 0 <= i < j ==> psi[t, i] == PsiRow(m, e, t)[i]
    {
      var transProbs := Trans(m, prev, j);
      var maxProb := Max(transProbs);
      var maxIdx := ArgMax(transProbs);
      delta[t, j] := Mul(m.b[j][e[t]], maxProb);
      psi[t, j] := maxIdx;
      DeltaStep(m, e, t, j);
      PsiEntry(m, e, t, j);
    }
  }

  /** The back-tracking loop: the last state is the first arg-max of the final delta row, and
      each earlier one is the backpointer of the state after it. */
  method Backtrack(m: Model, e: seq<nat>, delta: array2<real>, psi: array2<nat>) returns (path: array<nat>)
    requires WellFormed(m) && Emits(m, e) && |e| > 0 && Tables(m, e, delta, psi)
    ensures fresh(path) && path[..] == DecodedPath(m, e)
  {
    hide DeltaRow, PsiRow, State;
    var T := |e|;
    path := new nat[T](_ => 0);
    assert RowOf(delta, T - 1) == DeltaRow(m, e, T - 1);
    LastState(m, e);
    path[T - 1] := ArgMax(RowOf(delta, T - 1));
    var t := T - 1;
    while t > 0
      invariant 0 <= t <= T - 1
      invariant forall k :: t <= k < T ==> path[k] == State(m, e, k)
    {
      StateStep(m, e, t);
      path[t - 1] := psi[t, path[t]];
      t := t - 1;
    }
  }

  /** `viterbi_decodificacion` (and `suavizado_viterbi`): the names of the decoded states. */
  method Viterbi(m: Model, obs: seq<string>) returns (r: Result<seq<string>>)
    requires WellFormed(m)
    ensures r.Err? <==> Encode(m.symbols, obs).Err?
    ensures r.Err? ==> r.error == Encode(m.symbols, obs).error
    ensures r.Ok? ==> r.value == Names(m, DecodedPath(m, Encode(m.symbols, obs).value))
  {
    var e :- Encode(m.symbols, obs);
    var delta, psi := ViterbiTables(m, e);
    var path := Backtrack(m, e, delta, psi);
    r := Ok(Names(m, path[..]));
  }
}
