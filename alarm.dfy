/** The burglary-alarm network shared by 001_Red_Bayesiana.py, 003_Manto_Markov.py and
    004_Inter_Enumeracion.py: Robo (B) is the parent of Alarma (A), which is the parent of
    JuanLlama (J). Every variable takes the values "Si" and "No". */
module Alarm {
  import opened Wrappers
  import opened Reals

  /** estados_B and estados_A, in the order the loops visit them. */
  const Values: seq<string> := ["Si", "No"]

  predicate IsValue(v: string) {
    v == "Si" || v == "No"
  }

  /** P_B. */
  const PriorB: map<string, real> := map["Si" := 0.001, "No" := 0.999]

  /** P_A_dado_B[b][a]. */
  const AlarmGivenB: map<string, map<string, real>> :=
    map["Si" := map["Si" := 0.95, "No" := 0.05], "No" := map["Si" := 0.01, "No" := 0.99]]

  /** P_J_dado_A[a][j]. */
  const CallGivenA: map<string, map<string, real>> :=
    map["Si" := map["Si" := 0.90, "No" := 0.10], "No" := map["Si" := 0.05, "No" := 0.95]]

  /** Every table has the keys Si and No, its entries lie strictly between 0 and 1, and every
      row is a complementary pair. */
  lemma Tables()
    ensures Distribution(PriorB)
    ensures AlarmGivenB.Keys == {"Si", "No"} && CallGivenA.Keys == {"Si", "No"}
    ensures forall v :: IsValue(v) ==> Distribution(AlarmGivenB[v]) && Distribution(CallGivenA[v])
  {
    forall v | IsValue(v)
      ensures Distribution(AlarmGivenB[v]) && Distribution(CallGivenA[v])
    {
      Row(v);
    }
  }

  /** A table over Si and No whose two entries lie strictly between 0 and 1 and add up to 1. */
  predicate Distribution(m: map<string, real>) {
    && m.Keys == {"Si", "No"}
    && 0.0 < m["Si"] < 1.0 && 0.0 < m["No"] < 1.0
    && m["Si"] + m["No"] == 1.0
  }

  /** The tables at one value of the parent. */
  lemma Row(v: string)
    requires IsValue(v)
    ensures 0.0 < PriorB[v] < 1.0
    ensures AlarmGivenB[v].Keys == {"Si", "No"} && CallGivenA[v].Keys == {"Si", "No"}
    ensures AlarmGivenB[v]["Si"] + AlarmGivenB[v]["No"] == 1.0
    ensures CallGivenA[v]["Si"] + CallGivenA[v]["No"] == 1.0
    ensures forall w :: IsValue(w) ==> 0.0 < AlarmGivenB[v][w] < 1.0 && 0.0 < CallGivenA[v][w] < 1.0
  {
    if v == "Si" {
    } else {
    }
  }

  /** `calcular_probabilidad_conjunta(B, A, J)`: P(J | A) · P(A | B) · P(B), the chain rule of
      the network. A value other than Si or No is a KeyError. */
  function Joint(b: string, a: string, j: string): (r: Result<real>)
    ensures r.Err? <==> !(IsValue(b) && IsValue(a) && IsValue(j))
    ensures r.Err? ==> r.error == KeyError
    ensures r.Ok? ==> 0.0 < r.value < 1.0
  {
    TableKeys(b, a);
    var pb :- Get(PriorB, b);
    var pa :- Get(AlarmGivenB[b], a);
    var pj :- Get(CallGivenA[a], j);
    ProductInUnit(pj, pa, pb);
    Ok(Mul(Mul(pj, pa), pb))
  }

  /** What Joint needs of the tables at the values it looks up. */
  lemma TableKeys(b: string, a: string)
    ensures b in PriorB <==> IsValue(b)
    ensures IsValue(b) ==> b in AlarmGivenB
    ensures IsValue(a) ==> a in CallGivenA
    ensures IsValue(b) ==> 0.0 < PriorB[b] < 1.0 && AlarmGivenB[b].Keys == {"Si", "No"}
    ensures IsValue(b) && IsValue(a) ==> 0.0 < AlarmGivenB[b][a] < 1.0
    ensures IsValue(a) ==> CallGivenA[a].Keys == {"Si", "No"}
    ensures IsValue(a) ==> 0.0 < CallGivenA[a]["Si"] < 1.0 && 0.0 < CallGivenA[a]["No"] < 1.0
  {
    if IsValue(b) {
      Row(b);
    }
    if IsValue(a) {
      Row(a);
    }
  }

  lemma ProductInUnit(x: real, y: real, z: real)
    requires 0.0 < x < 1.0 && 0.0 < y < 1.0 && 0.0 < z < 1.0
    ensures 0.0 < Mul(Mul(x, y), z) < 1.0
  {
    ProductPositive(x, y);
    ProductPositive(Mul(x, y), z);
    MulMonotone(x, 1.0, y);
    MulMonotone(Mul(x, y), 1.0, z);
  }

  /** The worked example: P(B = Si, A = Si, J = Si) = 0.90 · 0.95 · 0.001. */
  lemma JointExample()
    ensures Joint("Si", "Si", "Si") == Ok(0.000855)
  {
  }

  /** The joint is a distribution: its eight values add up to 1. */
  lemma JointSumsToOne()
    ensures forall b, a, j :: IsValue(b) && IsValue(a) && IsValue(j) ==> Joint(b, a, j).Ok?
    ensures var p := (b: string, a: string, j: string) requires IsValue(b) && IsValue(a) && IsValue(j) => Joint(b, a, j).value;
      p("Si", "Si", "Si") + p("Si", "Si", "No") + p("Si", "No", "Si") + p("Si", "No", "No")
      + p("No", "Si", "Si") + p("No", "Si", "No") + p("No", "No", "Si") + p("No", "No", "No") == 1.0
  {
  }

  /** The inner loop: the joint with B = b and J = j summed over the first n values of A,
      starting from 0. */
  function OverAlarm(b: string, j: string, n: nat): (r: Result<real>)
    requires n <= |Values|
    ensures n > 0 ==> (r.Err? <==> !(IsValue(b) && IsValue(j)))
    ensures r.Err? ==> r.error == KeyError
  {
    if n == 0 then Ok(0.0)
    else
      var sum :- OverAlarm(b, j, n - 1);
      var term :- Joint(b, Values[n - 1], j);
      Ok(sum + term)
  }

  /** P(B = b, J = j): the alarm summed out. It is positive and at most P(B = b). */
  function Marginal(b: string, j: string): (r: Result<real>)
    ensures r.Err? <==> !(IsValue(b) && IsValue(j))
    ensures r.Err? ==> r.error == KeyError
    ensures r.Ok? ==> r.value == Joint(b, "Si", j).value + Joint(b, "No", j).value
    ensures r.Ok? ==> 0.0 < r.value <= PriorB[b]
  {
    MarginalBound(b, j);
    OverAlarm(b, j, 2)
  }

  /** Summing the alarm out of the joint leaves at most the prior of B, because P(J | A) is
      below 1 and P(A | B) sums to 1. */
  lemma MarginalBound(b: string, j: string)
    ensures IsValue(b) && IsValue(j) ==> 0.0 < Joint(b, "Si", j).value + Joint(b, "No", j).value <= PriorB[b]
  {
    if IsValue(b) && IsValue(j) {
      Row(b);
      Row("Si");
      Row("No");
      var p, x, y := PriorB[b], AlarmGivenB[b]["Si"], AlarmGivenB[b]["No"];
      var u, v := CallGivenA["Si"][j], CallGivenA["No"][j];
      assert Joint(b, "Si", j).value == Mul(Mul(u, x), p);
      assert Joint(b, "No", j).value == Mul(Mul(v, y), p);
      MulMonotone(u, 1.0, x);
      MulMonotone(v, 1.0, y);
      assert Mul(u, x) + Mul(v, y) <= 1.0;
      assert Mul(Mul(u, x), p) + Mul(Mul(v, y), p) == Mul(Mul(u, x) + Mul(v, y), p);
      MulMonotone(Mul(u, x) + Mul(v, y), 1.0, p);
    }
  }

  /** The nested loops of 001_Red_Bayesiana.py and `inferencia_por_enumeracion`: for each value
      of B, the joint with J fixed to the evidence, summed over A. */
  method Unnormalised(evidence: string) returns (r: Result<map<string, real>>)
    ensures r.Err? <==> !IsValue(evidence)
    ensures r.Err? ==> r.error == KeyError
    ensures r.Ok? ==> r.value.Keys == {"Si", "No"}
    ensures r.Ok? ==> forall b :: IsValue(b) ==> Marginal(b, evidence) == Ok(r.value[b])
  {
    var table := map["Si" := 0.0, "No" := 0.0];
    for i := 0 to |Values|
      invariant table.Keys == {"Si", "No"}
      invariant i > 0 ==> IsValue(evidence)
      invariant forall k :: 0 <= k < i ==> OverAlarm(Values[k], evidence, 2) == Ok(table[Values[k]])
    {
      var b := Values[i];
      var sum := 0.0;
      for k := 0 to |Values|
        invariant k > 0 ==> IsValue(evidence)
        invariant OverAlarm(b, evidence, k) == Ok(sum)
      {
        var term :- Joint(b, Values[k], evidence);
        sum := sum + term;
      }
      table := table[b := sum];
    }
    r := Ok(table);
  }

  /** `normalizador` and the two posteriors P(B = Si | J = evidence), P(B = No | J = evidence):
      each lies in [0, 1] and together they add up to 1. */
  function Posteriors(unnormalised: map<string, real>): (r: (real, real, real))
    requires unnormalised.Keys == {"Si", "No"}
    requires unnormalised["Si"] >= 0.0 && unnormalised["No"] >= 0.0
    requires unnormalised["Si"] + unnormalised["No"] > 0.0
    ensures r.0 == unnormalised["Si"] + unnormalised["No"]
    ensures 0.0 <= r.1 <= 1.0 && 0.0 <= r.2 <= 1.0 && r.1 + r.2 == 1.0
  {
    var normaliser := unnormalised["Si"] + unnormalised["No"];
    RatioInUnit(unnormalised["Si"], normaliser);
    RatioInUnit(unnormalised["No"], normaliser);
    FractionSum(unnormalised["Si"], unnormalised["No"], normaliser);
    SelfRatio(normaliser);
    (normaliser, unnormalised["Si"] / normaliser, unnormalised["No"] / normaliser)
  }

  /** Section 3 of 001_Red_Bayesiana.py: P(Robo | JuanLlama = Si) by marginalising the alarm and
      normalising. Returns the unnormalised table, the normaliser P(J = Si) and the two
      posteriors. */
  method Diagnose() returns (table: map<string, real>, normaliser: real, burglary: real, noBurglary: real)
    ensures table == map["Si" := 0.0008575, "No" := 0.0584415]
    ensures normaliser == 0.059299
    ensures burglary == 0.0008575 / 0.059299 && noBurglary == 0.0584415 / 0.059299
    ensures 0.0 <= burglary <= 1.0 && 0.0 <= noBurglary <= 1.0 && burglary + noBurglary == 1.0
  {
    var r := Unnormalised("Si");
    table := r.value;
    assert Marginal("Si", "Si") == Ok(0.0008575) && Marginal("No", "Si") == Ok(0.0584415);
    var posteriors := Posteriors(table);
    normaliser, burglary, noBurglary := posteriors.0, posteriors.1, posteriors.2;
  }

  /** `inferencia_por_enumeracion(query, evidence_value)`: the two posteriors of B given
      J = evidence, the normaliser P(J = evidence) and the unnormalised term for B = Si. The
      query argument plays no part. */
  method InferenceByEnumeration(query: string, evidence: string) returns (r: Result<(real, real, real, real)>)
    ensures r.Err? <==> !IsValue(evidence)
    ensures r.Err? ==> r.error == KeyError
    ensures r.Ok? ==> var (si, no, normaliser, unnormalisedSi) := r.value;
      && unnormalisedSi == Marginal("Si", evidence).value
      && normaliser == Marginal("Si", evidence).value + Marginal("No", evidence).value
      && 0.0 <= si <= 1.0 && 0.0 <= no <= 1.0 && si + no == 1.0
      && si == unnormalisedSi / normaliser
  {
    var table :- Unnormalised(evidence);
    assert Marginal("Si", evidence) == Ok(table["Si"]) && Marginal("No", evidence) == Ok(table["No"]);
    var posteriors := Posteriors(table);
    r := Ok((posteriors.1, posteriors.2, posteriors.0, table["Si"]));
  }

  /** `inferir_a_dado_bj(B, J)`: P(A = Si | B, J) from the two joint terms, and their sum
      P(B, J). Only the alarm's Markov blanket, its parent B and its child J, is consulted. */
  function AlarmGivenBlanket(b: string, j: string): (r: Result<(real, real)>)
    ensures r.Err? <==> !(IsValue(b) && IsValue(j))
    ensures r.Err? ==> r.error == KeyError
    ensures r.Ok? ==> 0.0 < r.value.0 < 1.0 && r.value.1 == Marginal(b, j).value
  {
    if !(IsValue(b) && IsValue(j)) then Err(KeyError)
    else
      var si, no := Joint(b, "Si", j).value, Joint(b, "No", j).value;
      var normaliser := si + no;
      RatioInUnit(si, normaliser);
      Ok((si / normaliser, normaliser))
  }

  /** The complement the script prints, 1 - p, is P(A = No | B, J). */
  lemma BlanketComplement(b: string, j: string)
    requires IsValue(b) && IsValue(j)
    ensures 1.0 - AlarmGivenBlanket(b, j).value.0 == Joint(b, "No", j).value / AlarmGivenBlanket(b, j).value.1
  {
    var si, no := Joint(b, "Si", j).value, Joint(b, "No", j).value;
    FractionSum(si, no, si + no);
    SelfRatio(si + no);
  }

  /** The prior of B cancels: the posterior depends on B only through P(A | B), and on J through
      P(J | A). */
  lemma BlanketCancelsPrior(b: string, j: string)
    requires IsValue(b) && IsValue(j)
    ensures var x := Mul(CallGivenA["Si"][j], AlarmGivenB[b]["Si"]);
      var y := Mul(CallGivenA["No"][j], AlarmGivenB[b]["No"]);
      x + y > 0.0 && AlarmGivenBlanket(b, j).value.0 == x / (x + y)
  {
    Row(b);
    Row("Si");
    Row("No");
    var x := Mul(CallGivenA["Si"][j], AlarmGivenB[b]["Si"]);
    var y := Mul(CallGivenA["No"][j], AlarmGivenB[b]["No"]);
    var p := PriorB[b];
    ProductPositive(CallGivenA["Si"][j], AlarmGivenB[b]["Si"]);
    ProductPositive(CallGivenA["No"][j], AlarmGivenB[b]["No"]);
    CommonFactor(x, y, p);
  }

  lemma CommonFactor(x: real, y: real, p: real)
    requires x > 0.0 && y > 0.0 && p > 0.0
    ensures Mul(x, p) / (Mul(x, p) + Mul(y, p)) == x / (x + y)
  {
    assert Mul(x, p) + Mul(y, p) == (x + y) * p;
  }

  /** The script's example: with a burglary and no call from Juan, the alarm rang with
      probability 2/3. */
  lemma BlanketExample()
    ensures AlarmGivenBlanket("Si", "No") == Ok((0.000095 / 0.0001425, 0.0001425))
    ensures 0.000095 / 0.0001425 == 2.0 / 3.0
  {
  }
}
