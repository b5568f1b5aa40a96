/** The Hebbian learning rule (007.2_Hebb.py): one connection weight, strengthened by the
    product of the two activations at every scenario. */
module Hebb {
  import opened Reals

  /** PESO_WAB before learning. */
  const InitialWeight: real := 0.1

  /** TASA_APRENDIZAJE. */
  const Rate: real := 0.5

  /** ESCENARIOS: the (A, B) activations, in order. */
  const Scenarios: seq<(int, int)> := [(1, 1), (1, 0), (0, 1), (1, 1)]

  /** `cambio_w = TASA_APRENDIZAJE * activacion_a * activacion_b`. */
  function Change(rate: real, a: int, b: int): real {
    Mul(Mul(rate, a as real), b as real)
  }

  /** The weight after the scenarios, applied left to right. */
  function Weight(w0: real, rate: real, scenarios: seq<(int, int)>): real {
    if scenarios == [] then w0
    else
      var s := scenarios[|scenarios| - 1];
      Weight(w0, rate, scenarios[..|scenarios| - 1]) + Change(rate, s.0, s.1)
  }

  /** The learning loop: `PESO_WAB += cambio_w` for every scenario. */
  method Learn(w0: real, rate: real, scenarios: seq<(int, int)>) returns (w: real)
    ensures w == Weight(w0, rate, scenarios)
  {
    w := w0;
    var i := 0;
    while i < |scenarios|
      invariant i <= |scenarios|
      invariant w == Weight(w0, rate, scenarios[..i])
    {
      var (a, b) := scenarios[i];
      var change := Change(rate, a, b);
      assert scenarios[..i + 1][..i] == scenarios[..i];
      w := w + change;
      i := i + 1;
    }
    assert scenarios[..i] == scenarios;
  }

  predicate IsBit(x: int) {
    x == 0 || x == 1
  }

  /** With 0/1 activations a step adds the rate exactly when both neurons fire. */
  lemma ChangeOfBits(rate: real, a: int, b: int)
    requires IsBit(a) && IsBit(b)
    ensures Change(rate, a, b) == if a == 1 && b == 1 then rate else 0.0
  {
  }

  /** Number of scenarios where both neurons fire. */
  function BothActive(scenarios: seq<(int, int)>): nat {
    if scenarios == [] then 0
    else
      var s := scenarios[|scenarios| - 1];
      BothActive(scenarios[..|scenarios| - 1]) + (if s.0 == 1 && s.1 == 1 then 1 else 0)
  }

  predicate AllBits(scenarios: seq<(int, int)>) {
    forall i :: 0 <= i < |scenarios| ==> IsBit(scenarios[i].0) && IsBit(scenarios[i].1)
  }

  /** With 0/1 activations the final weight is the initial weight plus the rate once per
      scenario where both fire. */
  lemma {:induction false} WeightOfBits(w0: real, rate: real, scenarios: seq<(int, int)>)
    requires AllBits(scenarios)
    ensures Weight(w0, rate, scenarios) == w0 + rate * BothActive(scenarios) as real
  {
    hide Change, Mul;
    if scenarios != [] {
      var n := |scenarios| - 1;
      WeightOfBits(w0, rate, scenarios[..n]);
      ChangeOfBits(rate, scenarios[n].0, scenarios[n].1);
      var k := BothActive(scenarios[..n]) as real;
      if scenarios[n].0 == 1 && scenarios[n].1 == 1 {
        assert rate * k + rate == rate * (k + 1.0);
      }
    }
  }

  /** With a non-negative rate and activations, learning never lowers the weight, step by step. */
  lemma {:induction false} WeightNeverDecreases(w0: real, rate: real, scenarios: seq<(int, int)>, k: nat)
    requires rate >= 0.0 && forall i :: 0 <= i < |scenarios| ==> scenarios[i].0 >= 0 && scenarios[i].1 >= 0
    requires k < |scenarios|
    ensures Weight(w0, rate, scenarios[..k]) <= Weight(w0, rate, scenarios[..k + 1])
    ensures w0 <= Weight(w0, rate, scenarios)
  {
    assert scenarios[..k + 1][..k] == scenarios[..k];
    NonNegativeChange(rate, scenarios[k].0, scenarios[k].1);
    if |scenarios| > 1 {
      var n := |scenarios| - 1;
      var init := scenarios[..n];
      WeightNeverDecreases(w0, rate, init, if k < n then k else 0);
      NonNegativeChange(rate, scenarios[n].0, scenarios[n].1);
    } else {
      assert scenarios[..0] == [];
    }
  }

  lemma NonNegativeChange(rate: real, a: int, b: int)
    requires rate >= 0.0 && a >= 0 && b >= 0
    ensures Change(rate, a, b) >= 0.0
  {
    if rate > 0.0 && a > 0 {
      ProductPositive(rate, a as real);
      if b > 0 {
        ProductPositive(Mul(rate, a as real), b as real);
      }
    }
  }

  /** The scenarios of the script end at 0.1 + 0.5·2 = 1.1. */
  lemma SampleWeight()
    ensures Weight(InitialWeight, Rate, Scenarios) == 1.1
  {
    assert AllBits(Scenarios);
    WeightOfBits(InitialWeight, Rate, Scenarios);
    var s := Scenarios;
    assert s[..3][..2] == s[..2] && s[..2][..1] == s[..1] && s[..1][..0] == [];
    assert BothActive(s[..1]) == 1;
    assert BothActive(s[..3]) == 1;
    assert BothActive(s) == 2;
  }

  /** The final weight depends only on which scenarios occur, not on their order. */
  lemma {:induction false} WeightOrderIndependent(w0: real, rate: real, s: seq<(int, int)>, t: seq<(int, int)>)
    requires multiset(s) == multiset(t)
    ensures Weight(w0, rate, s) == Weight(w0, rate, t)
    decreases |s|
  {
    if s == [] {
      assert |t| == |multiset(t)| == 0;
    } else {
      var n := |s| - 1;
      var x := s[n];
      assert s == s[..n] + [x];
      assert x in multiset(t);
      var j :| 0 <= j < |t| && t[j] == x;
      var t' := t[..j] + t[j + 1..];
      assert t == t[..j] + [x] + t[j + 1..];
      assert multiset(t) == multiset(t[..j]) + multiset([x]) + multiset(t[j + 1..]);
      assert multiset(t') == multiset(t[..j]) + multiset(t[j + 1..]);
      assert multiset(s) == multiset(s[..n]) + multiset([x]);
      assert multiset(s[..n]) == multiset(s) - multiset([x]);
      assert multiset(t') == multiset(t) - multiset([x]);
      WeightOrderIndependent(w0, rate, s[..n], t');
      WeightRemove(w0, rate, t, j);
    }
  }

  /** Taking one scenario out of the middle removes exactly its change. */
  lemma {:induction false} WeightRemove(w0: real, rate: real, t: seq<(int, int)>, j: nat)
    requires j < |t|
    ensures Weight(w0, rate, t) == Weight(w0, rate, t[..j] + t[j + 1..]) + Change(rate, t[j].0, t[j].1)
  {
    var n := |t| - 1;
    if j == n {
      assert t[..j] + t[j + 1..] == t[..n];
    } else {
      WeightRemove(w0, rate, t[..n], j);
      assert t[..n][..j] + t[..n][j + 1..] == (t[..j] + t[j + 1..])[..n - 1];
      assert (t[..j] + t[j + 1..])[n - 1] == t[n];
    }
  }
}
