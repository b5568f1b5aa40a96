/** The optimistic greedy agent for a three-armed bandit (001_Incertidumbre.py): estimated
    values start high, the agent always pulls the arm with the highest estimate, and moves that
    estimate towards the reward with a constant step size. The random draws of `jalar_brazo`
    are an input. */
module Bandit {
  import opened Reals
  import opened Vectors

  const NumArms: nat := 3

  /** PROBABILIDADES_REALES: the chance that each arm pays 1. */
  const TrueProbabilities: seq<real> := [0.4, 0.6, 0.5]

  /** PASOS: the number of draws the script makes. */
  const Steps: nat := 500

  /** ALPHA: the constant step size. */
  const Alpha: real := 0.1

  /** Q_INICIAL: the optimistic initial estimate. */
  const InitialQ: real := 5.0

  /** `jalar_brazo`, given the uniform draw u of `random.random()`. */
  function Pull(arm: nat, u: real): (reward: int)
    requires arm < NumArms
    ensures reward == 0 || reward == 1
    ensures reward == 1 <==> u < TrueProbabilities[arm]
  {
    if u < TrueProbabilities[arm] then 1 else 0
  }

  /** The new estimate of `actualizar_Q`: the old one moved by ALPHA times the error. */
  function Blend(estimate: real, reward: real, alpha: real): real {
    estimate + Mul(alpha, reward - estimate)
  }

  /** With a step size in [0, 1] the new estimate lies between the old one and the reward. */
  lemma BlendBetween(estimate: real, reward: real, alpha: real)
    requires 0.0 <= alpha <= 1.0
    ensures estimate <= reward ==> estimate <= Blend(estimate, reward, alpha) <= reward
    ensures reward <= estimate ==> reward <= Blend(estimate, reward, alpha) <= estimate
  {
    var d := reward - estimate;
    if d > 0.0 {
      assert 0.0 <= alpha * d <= d by {
        assert (1.0 - alpha) * d >= 0.0;
      }
    } else {
      assert d <= alpha * d <= 0.0 by {
        assert (1.0 - alpha) * (-d) >= 0.0;
      }
    }
  }

  /** The total of the pull counts. */
  function TotalPulls(s: seq<nat>): nat {
    if s == [] then 0 else TotalPulls(s[..|s| - 1]) + s[|s| - 1]
  }

  /** Adding one to an entry adds one to the total. */
  lemma {:induction false} SumIncrement(s: seq<nat>, a: nat)
    requires a < |s|
    ensures TotalPulls(s[a := s[a] + 1]) == TotalPulls(s) + 1
  {
    var n := |s| - 1;
    var t := s[a := s[a] + 1];
    if a == n {
      assert t[..n] == s[..n];
    } else {
      SumIncrement(s[..n], a);
      assert t[..n] == s[..n][a := s[a] + 1];
    }
  }

  /** The agent's tables: estimates and pull counts. */
  datatype Tables = Tables(q: seq<real>, counts: seq<nat>)

  predicate WellFormed(t: Tables) {
    |t.q| == NumArms && |t.counts| == NumArms
  }

  /** One step of the main loop: pull the greedy arm with draw u and learn from its reward. */
  function Play(t: Tables, u: real): (t': Tables)
    requires WellFormed(t)
    ensures WellFormed(t')
  {
    var a := ArgMax(t.q);
    var reward := Pull(a, u);
    Tables(t.q[a := Blend(t.q[a], reward as real, Alpha)], t.counts[a := t.counts[a] + 1])
  }

  /** The tables after the main loop has consumed the draws, in order. */
  function Simulate(t: Tables, draws: seq<real>): (t': Tables)
    requires WellFormed(t)
    ensures WellFormed(t')
  {
    if draws == [] then t else Play(Simulate(t, draws[..|draws| - 1]), draws[|draws| - 1])
  }

  /** Every step counts exactly one pull. */
  lemma {:induction false} SimulateCountsPulls(t: Tables, draws: seq<real>)
    requires WellFormed(t)
    ensures TotalPulls(Simulate(t, draws).counts) == TotalPulls(t.counts) + |draws|
  {
    if draws != [] {
      var s := Simulate(t, draws[..|draws| - 1]);
      SimulateCountsPulls(t, draws[..|draws| - 1]);
      SumIncrement(s.counts, ArgMax(s.q));
    }
  }

  /** Estimates between 0 and the optimistic start. */
  predicate Bounded(q: seq<real>) {
    forall i :: 0 <= i < |q| ==> 0.0 <= q[i] <= InitialQ
  }

  /** Since rewards are 0 or 1, learning keeps every estimate between 0 and 5. */
  lemma {:induction false} SimulateStaysBounded(t: Tables, draws: seq<real>)
    requires WellFormed(t) && Bounded(t.q)
    ensures Bounded(Simulate(t, draws).q)
  {
    if draws != [] {
      var s := Simulate(t, draws[..|draws| - 1]);
      SimulateStaysBounded(t, draws[..|draws| - 1]);
      var a := ArgMax(s.q);
      var reward := Pull(a, draws[|draws| - 1]) as real;
      BlendBetween(s.q[a], reward, Alpha);
      var v := Blend(s.q[a], reward, Alpha);
      assert 0.0 <= v <= InitialQ;
      assert Simulate(t, draws).q == s.q[a := v];
    }
  }

  /** A fresh agent: every estimate 5.0, every count 0. */
  const Initial: Tables := Tables([InitialQ, InitialQ, InitialQ], [0, 0, 0])

  /** With equal optimistic estimates the first pick is arm 0, and after the script's steps the
      counts add up to PASOS. */
  lemma FreshAgent(draws: seq<real>)
    requires |draws| == Steps
    ensures ArgMax(Initial.q) == 0
    ensures TotalPulls(Simulate(Initial, draws).counts) == Steps
    ensures Bounded(Simulate(Initial, draws).q)
  {
    var c := Initial.counts;
    assert c[..2] == [0, 0] && c[..2][..1] == [0] && [0][..0] == [];
    assert TotalPulls([0]) == 0 && TotalPulls([0, 0]) == 0;
    SimulateCountsPulls(Initial, draws);
    SimulateStaysBounded(Initial, draws);
  }

  /** The agent's tables as the script keeps them, as arrays updated in place. */
  class Agent {
    const q: array<real>
    const counts: array<nat>

    ghost predicate Valid()
      reads this
    {
      q.Length == NumArms && counts.Length == NumArms
    }

    function State(): Tables
      reads this, q, counts
    {
      Tables(q[..], counts[..])
    }

    /** `np.full(NUM_BRAZOS, Q_INICIAL)` and `np.zeros(NUM_BRAZOS)`. */
    constructor ()
      ensures Valid() && fresh(q) && fresh(counts)
      ensures State() == Initial
    {
      q := new real[NumArms](_ => InitialQ);
      counts := new nat[NumArms](_ => 0);
      new;
      assert q[..] == [InitialQ, InitialQ, InitialQ];
      assert counts[..] == [0, 0, 0];
    }

    /** `elegir_accion_greedy`. */
    method ChooseGreedy() returns (a: nat)
      requires Valid()
      ensures a == ArgMax(q[..])
    {
      a := 0;
      var i := 1;
      while i < q.Length
        invariant 1 <= i <= q.Length
        invariant a == ArgMax(q[..i])
      {
        assert q[..i + 1][..i] == q[..i];
        if q[i] > q[a] {
          a := i;
        }
        i := i + 1;
      }
      assert q[..i] == q[..];
    }

    /** `actualizar_Q`: one more pull of arm a, and its estimate moved towards the reward by
        the constant ALPHA (the pull count is not the step size). Nothing else changes. */
    method Update(a: nat, reward: int)
      requires Valid() && a < NumArms
      modifies q, counts
      ensures counts[..] == old(counts[..])[a := old(counts[a]) + 1]
      ensures q[..] == old(q[..])[a := Blend(old(q[a]), reward as real, Alpha)]
    {
      counts[a] := counts[a] + 1;
      var error := reward as real - q[a];
      q[a] := q[a] + Mul(Alpha, error);
    }

    /** The main loop: one greedy pull and update per draw. */
    method Run(draws: seq<real>)
      requires Valid()
      modifies q, counts
      ensures State() == Simulate(old(State()), draws)
    {
      ghost var start := State();
      var step := 0;
      while step < |draws|
        invariant step <= |draws|
        invariant State() == Simulate(start, draws[..step])
      {
        assert draws[..step + 1][..step] == draws[..step];
        var arm := ChooseGreedy();
        var reward := Pull(arm, draws[step]);
        Update(arm, reward);
        step := step + 1;
      }
      assert draws[..step] == draws;
    }
  }
}
