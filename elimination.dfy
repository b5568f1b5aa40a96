/** Variable elimination in the student network of 005_Elim_Variables.py: Dificultad (D) and
    Inteligencia (I) are the parents of the grade G, and I is the parent of the recommendation
    letter L. With the grade observed, D and then I are summed out to obtain P(L | G). */
module Elimination {
  import opened Wrappers
  import opened Reals

  /** A Python dictionary key: a plain string (P(D), P(I)) or a tuple of strings (the
      conditional tables). */
  datatype Key = Name(name: string) | Tuple(items: seq<string>)

  /** A factor (conditional probability table) keyed by value assignments. */
  type Factor = map<Key, real>

  /** F_D. */
  const Difficulty: Factor := map[Name("Alta") := 0.6, Name("Baja") := 0.4]

  /** F_I. */
  const Intelligence: Factor := map[Name("Alta") := 0.7, Name("Baja") := 0.3]

  /** F_L_dado_I, keyed by (I, L). */
  const LetterGivenI: Factor := map[
    Tuple(["Alta", "Fuerte"]) := 0.8, Tuple(["Alta", "Débil"]) := 0.2,
    Tuple(["Baja", "Fuerte"]) := 0.3, Tuple(["Baja", "Débil"]) := 0.7]

  /** F_G_dado_DI, keyed by (D, I, G). */
  const GradeGivenDI: Factor := map[
    Tuple(["Alta", "Alta", "A"]) := 0.3, Tuple(["Alta", "Baja", "A"]) := 0.05,
    Tuple(["Baja", "Alta", "A"]) := 0.9, Tuple(["Baja", "Baja", "A"]) := 0.5,
    Tuple(["Alta", "Alta", "B"]) := 0.7, Tuple(["Alta", "Baja", "B"]) := 0.95,
    Tuple(["Baja", "Alta", "B"]) := 0.1, Tuple(["Baja", "Baja", "B"]) := 0.5]

  /** The values of D and of I, in the order the loops visit them. */
  const Levels: seq<string> := ["Alta", "Baja"]

  /** The values of L, in the order the loops visit them. */
  const Letters: seq<string> := ["Fuerte", "Débil"]

  /** G_EVIDENCIA. */
  const GradeEvidence: string := "A"

  predicate IsLevel(v: string) {
    v == "Alta" || v == "Baja"
  }

  predicate IsLetter(v: string) {
    v == "Fuerte" || v == "Débil"
  }

  /** The other value of the letter; anything that is not Fuerte counts as Débil. */
  function Opposite(l: string): (r: string)
    ensures r != l && IsLetter(r)
  {
    if l == "Fuerte" then "Débil" else "Fuerte"
  }

  lemma OppositeInvolutive(l: string)
    requires IsLetter(l)
    ensures Opposite(Opposite(l)) == l
  {
  }

  /** The key `get_cpt_value` looks up first: the string itself for one key, the tuple
      otherwise. */
  function KeyOf(keys: seq<string>): Key {
    if |keys| == 1 then Name(keys[0]) else Tuple(keys)
  }

  /** `get_cpt_value(factor, keys)`. A missing pair key (I, L) falls back on one minus the entry
      of the opposite letter, and fails with KeyError when that one is missing too; any other
      missing key gives 0.0. */
  function CptValue(factor: Factor, keys: seq<string>): (r: Result<real>)
    ensures r.Err? <==> KeyOf(keys) !in factor && |keys| == 2 && Tuple([keys[0], Opposite(keys[1])]) !in factor
    ensures r.Err? ==> r.error == KeyError
    ensures KeyOf(keys) in factor ==> r == Ok(factor[KeyOf(keys)])
    ensures KeyOf(keys) !in factor && |keys| != 2 ==> r == Ok(0.0)
  {
    var key := KeyOf(keys);
    if key in factor then Ok(factor[key])
    else if |keys| == 2 then
      var opposite := Tuple([keys[0], Opposite(keys[1])]);
      if opposite in factor then Ok(1.0 - factor[opposite]) else Err(KeyError)
    else Ok(0.0)
  }

  /** A binary table whose rows add up to one loses nothing when one entry of a row is dropped:
      the fallback rebuilds it from the other entry. */
  lemma FallbackRebuildsEntry(factor: Factor, k: string, l: string)
    requires IsLetter(l)
    requires Tuple([k, l]) in factor && Tuple([k, Opposite(l)]) in factor
    requires factor[Tuple([k, l])] + factor[Tuple([k, Opposite(l)])] == 1.0
    ensures CptValue(factor - {Tuple([k, l])}, [k, l]) == CptValue(factor, [k, l])
  {
    assert Tuple([k, Opposite(l)]) != Tuple([k, l]);
  }

  /** The tables the script uses are complete and every conditional row adds up to one. */
  lemma TablesComplete()
    ensures forall v :: IsLevel(v) ==> Name(v) in Difficulty && Name(v) in Intelligence
    ensures Difficulty[Name("Alta")] + Difficulty[Name("Baja")] == 1.0
    ensures Intelligence[Name("Alta")] + Intelligence[Name("Baja")] == 1.0
    ensures forall i, l :: IsLevel(i) && IsLetter(l) ==>
      Tuple([i, l]) in LetterGivenI && LetterGivenI[Tuple([i, l])] + LetterGivenI[Tuple([i, Opposite(l)])] == 1.0
    ensures forall d, i :: IsLevel(d) && IsLevel(i) ==>
      Tuple([d, i, "A"]) in GradeGivenDI && Tuple([d, i, "B"]) in GradeGivenDI
      && GradeGivenDI[Tuple([d, i, "A"])] + GradeGivenDI[Tuple([d, i, "B"])] == 1.0
  {
    forall i, l | IsLevel(i) && IsLetter(l)
      ensures Tuple([i, l]) in LetterGivenI && LetterGivenI[Tuple([i, l])] + LetterGivenI[Tuple([i, Opposite(l)])] == 1.0
    {
      if i == "Alta" {
      } else {
      }
    }
    forall d, i | IsLevel(d) && IsLevel(i)
      ensures Tuple([d, i, "A"]) in GradeGivenDI && Tuple([d, i, "B"]) in GradeGivenDI
      ensures GradeGivenDI[Tuple([d, i, "A"])] + GradeGivenDI[Tuple([d, i, "B"])] == 1.0
    {
      if d == "Alta" {
      } else {
      }
    }
  }

  /** `F_G_dado_DI.get(key, 1.0 - F_G_dado_DI.get(key[:-1] + ('B',), 0.0))` for the key
      (D, I, g). For the grades A and B it is the table entry; any other grade is read as the
      complement of B, which is the entry for A. */
  function GradeGiven(d: string, i: string, g: string): (r: real)
    ensures IsLevel(d) && IsLevel(i) && (g == "A" || g == "B") ==> r == GradeGivenDI[Tuple([d, i, g])]
    ensures IsLevel(d) && IsLevel(i) && g != "A" && g != "B" ==> r == GradeGivenDI[Tuple([d, i, "A"])]
    ensures 0.0 <= r <= 1.0 || !(IsLevel(d) && IsLevel(i))
  {
    TablesComplete();
    var fallback := 1.0 - (if Tuple([d, i, "B"]) in GradeGivenDI then GradeGivenDI[Tuple([d, i, "B"])] else 0.0);
    if Tuple([d, i, g]) in GradeGivenDI then GradeGivenDI[Tuple([d, i, g])] else fallback
  }

  /** P(D = d), P(I = i) and P(L = l | I = i) as `get_cpt_value` returns them. */
  function PriorD(d: string): real
    requires IsLevel(d)
  {
    TablesComplete();
    CptValue(Difficulty, [d]).value
  }

  function PriorI(i: string): real
    requires IsLevel(i)
  {
    TablesComplete();
    CptValue(Intelligence, [i]).value
  }

  function LetterGiven(i: string, l: string): real
    requires IsLevel(i) && IsLetter(l)
  {
    TablesComplete();
    CptValue(LetterGivenI, [i, l]).value
  }

  /** The numbers `get_cpt_value` returns for the priors and the letter table. */
  lemma CptNumbers()
    ensures PriorD("Alta") == 0.6 && PriorD("Baja") == 0.4
    ensures PriorI("Alta") == 0.7 && PriorI("Baja") == 0.3
    ensures LetterGiven("Alta", "Fuerte") == 0.8 && LetterGiven("Alta", "Débil") == 0.2
    ensures LetterGiven("Baja", "Fuerte") == 0.3 && LetterGiven("Baja", "Débil") == 0.7
  {
    assert KeyOf(["Alta"]) == Name("Alta") && KeyOf(["Baja"]) == Name("Baja");
    assert KeyOf(["Alta", "Fuerte"]) == Tuple(["Alta", "Fuerte"]) && KeyOf(["Alta", "Débil"]) == Tuple(["Alta", "Débil"]);
    assert KeyOf(["Baja", "Fuerte"]) == Tuple(["Baja", "Fuerte"]) && KeyOf(["Baja", "Débil"]) == Tuple(["Baja", "Débil"]);
  }

  /** The inner loop of step A: the sum over the first n values of D of P(G = g | D, I = i) P(D). */
  function OverDifficulty(i: string, g: string, n: nat): real
    requires n <= |Levels|
  {
    if n == 0 then 0.0 else OverDifficulty(i, g, n - 1) + GradeGiven(Levels[n - 1], i, g) * PriorD(Levels[n - 1])
  }

  /** Step A, T1(I) = sum over D of P(G = g | D, I) P(D): the factor left once D is eliminated. */
  method EliminateDifficulty(g: string) returns (t1: map<string, real>)
    ensures t1.Keys == {"Alta", "Baja"}
    ensures forall i :: IsLevel(i) ==> t1[i] == OverDifficulty(i, g, |Levels|)
  {
    hide GradeGiven, PriorD;
    t1 := map[];
    for n := 0 to |Levels|
      invariant forall i :: i in t1 <==> i in Levels[..n]
      invariant forall k :: 0 <= k < n ==> t1[Levels[k]] == OverDifficulty(Levels[k], g, |Levels|)
    {
      var i := Levels[n];
      var sum := 0.0;
      for m := 0 to |Levels|
        invariant sum == OverDifficulty(i, g, m)
      {
        var d := Levels[m];
        var grade := GradeGiven(d, i, g);
        var prior := PriorD(d);
        sum := sum + grade * prior;
      }
      t1 := t1[i := sum];
    }
    assert Levels[..|Levels|] == Levels;
  }

  /** The inner loop of step B: the sum over the first n values of I of
      P(L = l | I) P(I) T1(I). */
  function OverIntelligence(l: string, t1: map<string, real>, n: nat): real
    requires IsLetter(l) && t1.Keys == {"Alta", "Baja"} && n <= |Levels|
  {
    if n == 0 then 0.0
    else
      var i := Levels[n - 1];
      OverIntelligence(l, t1, n - 1) + LetterGiven(i, l) * PriorI(i) * t1[i]
  }

  /** Step B, T2(L) = sum over I of P(L | I) P(I) T1(I): the factor left once I is eliminated. */
  method EliminateIntelligence(t1: map<string, real>) returns (t2: map<string, real>)
    requires t1.Keys == {"Alta", "Baja"}
    ensures t2.Keys == {"Fuerte", "Débil"}
    ensures forall l :: IsLetter(l) ==> t2[l] == OverIntelligence(l, t1, |Levels|)
  {
    hide LetterGiven, PriorI;
    t2 := map[];
    for n := 0 to |Letters|
      invariant forall l :: l in t2 <==> l in Letters[..n]
      invariant forall k :: 0 <= k < n ==> t2[Letters[k]] == OverIntelligence(Letters[k], t1, |Levels|)
    {
      var l := Letters[n];
      var sum := 0.0;
      for m := 0 to |Levels|
        invariant sum == OverIntelligence(l, t1, m)
      {
        var i := Levels[m];
        var letter := LetterGiven(i, l);
        var prior := PriorI(i);
        sum := sum + letter * prior * t1[i];
      }
      t2 := t2[l := sum];
    }
    assert Letters[..|Letters|] == Letters;
  }

  /** The full joint P(D = d, I = i, G = g, L = l) of the network. */
  function Joint(d: string, i: string, g: string, l: string): (r: real)
    requires IsLevel(d) && IsLevel(i) && IsLetter(l)
    ensures (g == "A" || g == "B") ==> r >= 0.0
  {
    var pd, pi, pg, pl := PriorD(d), PriorI(i), GradeGiven(d, i, g), LetterGiven(i, l);
    MulNonNegative(pd, pi);
    MulNonNegative(Mul(pd, pi), pg);
    MulNonNegative(Mul(Mul(pd, pi), pg), pl);
    Mul(Mul(Mul(pd, pi), pg), pl)
  }

  /** Brute-force enumeration: P(L = l, G = g) as the sum of the joint over D and I. */
  function Enumerated(g: string, l: string): real
    requires IsLetter(l)
  {
    Joint("Alta", "Alta", g, l) + Joint("Alta", "Baja", g, l) + Joint("Baja", "Alta", g, l) + Joint("Baja", "Baja", g, l)
  }

  /** The two sums of step A, written out per value of I. */
  lemma StepA(g: string)
    ensures OverDifficulty("Alta", g, 2) == GradeGiven("Alta", "Alta", g) * 0.6 + GradeGiven("Baja", "Alta", g) * 0.4
    ensures OverDifficulty("Baja", g, 2) == GradeGiven("Alta", "Baja", g) * 0.6 + GradeGiven("Baja", "Baja", g) * 0.4
  {
    CptNumbers();
    assert Levels[0] == "Alta" && Levels[1] == "Baja";
    assert OverDifficulty("Alta", g, 1) == GradeGiven("Alta", "Alta", g) * 0.6;
    assert OverDifficulty("Baja", g, 1) == GradeGiven("Alta", "Baja", g) * 0.6;
  }

  /** The two sums of step B, written out per value of I. */
  lemma StepB(l: string, t1: map<string, real>)
    requires IsLetter(l) && t1.Keys == {"Alta", "Baja"}
    ensures OverIntelligence(l, t1, 2) == LetterGiven("Alta", l) * 0.7 * t1["Alta"] + LetterGiven("Baja", l) * 0.3 * t1["Baja"]
  {
    CptNumbers();
    assert Levels[0] == "Alta" && Levels[1] == "Baja";
    assert OverIntelligence(l, t1, 1) == LetterGiven("Alta", l) * 0.7 * t1["Alta"];
  }

  /** The four joint terms of the enumeration, written out with the priors' numbers. */
  lemma EnumeratedTerms(g: string, l: string)
    requires IsLetter(l)
    ensures Enumerated(g, l) ==
      0.6 * 0.7 * GradeGiven("Alta", "Alta", g) * LetterGiven("Alta", l)
      + 0.6 * 0.3 * GradeGiven("Alta", "Baja", g) * LetterGiven("Baja", l)
      + 0.4 * 0.7 * GradeGiven("Baja", "Alta", g) * LetterGiven("Alta", l)
      + 0.4 * 0.3 * GradeGiven("Baja", "Baja", g) * LetterGiven("Baja", l)
  {
    CptNumbers();
  }

  /** Eliminating D and then I gives what summing the full joint gives: T2(l) = P(L = l, G = g). */
  lemma EliminationIsEnumeration(g: string, l: string)
    requires IsLetter(l)
    ensures var t1 := map["Alta" := OverDifficulty("Alta", g, 2), "Baja" := OverDifficulty("Baja", g, 2)];
      OverIntelligence(l, t1, 2) == Enumerated(g, l)
  {
    hide OverIntelligence, OverDifficulty, Enumerated, GradeGiven, LetterGiven, PriorD, PriorI;
    var t1 := map["Alta" := OverDifficulty("Alta", g, 2), "Baja" := OverDifficulty("Baja", g, 2)];
    StepA(g);
    StepB(l, t1);
    EnumeratedTerms(g, l);
    var gaa, gba := GradeGiven("Alta", "Alta", g), GradeGiven("Baja", "Alta", g);
    var gab, gbb := GradeGiven("Alta", "Baja", g), GradeGiven("Baja", "Baja", g);
    var la, lb := LetterGiven("Alta", l), LetterGiven("Baja", l);
    Distribute(gaa, gba, gab, gbb, la, lb);
  }

  /** Step B's sum of products of step A's sums, multiplied out. */
  lemma Distribute(gaa: real, gba: real, gab: real, gbb: real, la: real, lb: real)
    ensures la * 0.7 * (gaa * 0.6 + gba * 0.4) + lb * 0.3 * (gab * 0.6 + gbb * 0.4)
      == 0.6 * 0.7 * gaa * la + 0.6 * 0.3 * gab * lb + 0.4 * 0.7 * gba * la + 0.4 * 0.3 * gbb * lb
  {
  }

  /** P(L = Fuerte | G = g) from T2: the normaliser is T2(Fuerte) + T2(Débil). */
  function Posterior(t2: map<string, real>): (r: Result<real>)
    requires t2.Keys == {"Fuerte", "Débil"}
    ensures r.Err? <==> t2["Fuerte"] + t2["Débil"] == 0.0
    ensures r.Err? ==> r.error == ZeroDivisionError
    ensures r.Ok? && t2["Fuerte"] >= 0.0 && t2["Débil"] >= 0.0 ==> 0.0 <= r.value <= 1.0
  {
    var normaliser := t2["Fuerte"] + t2["Débil"];
    if normaliser == 0.0 then Err(ZeroDivisionError)
    else
      if t2["Fuerte"] >= 0.0 && t2["Débil"] >= 0.0 then RatioInUnit(t2["Fuerte"], normaliser); Ok(t2["Fuerte"] / normaliser)
      else Ok(t2["Fuerte"] / normaliser)
  }

  /** The whole script for the grade g: T1, T2, the normaliser and P(L = Fuerte | G = g). */
  method LetterGivenGrade(g: string) returns (t1: map<string, real>, t2: map<string, real>, normaliser: real, r: Result<real>)
    ensures t1.Keys == {"Alta", "Baja"} && t2.Keys == {"Fuerte", "Débil"}
    ensures forall l :: IsLetter(l) ==> t2[l] == Enumerated(g, l)
    ensures normaliser == Enumerated(g, "Fuerte") + Enumerated(g, "Débil")
    ensures r == Posterior(t2)
  {
    t1 := EliminateDifficulty(g);
    t2 := EliminateIntelligence(t1);
    assert t1 == map["Alta" := OverDifficulty("Alta", g, 2), "Baja" := OverDifficulty("Baja", g, 2)];
    EliminationIsEnumeration(g, "Fuerte");
    EliminationIsEnumeration(g, "Débil");
    normaliser := t2["Fuerte"] + t2["Débil"];
    r := Posterior(t2);
  }

  /** The normaliser is P(G = g): the letter sums out. Over the two grades it adds up to one. */
  lemma NormaliserIsEvidence(g: string)
    requires g == "A" || g == "B"
    ensures Enumerated(g, "Fuerte") + Enumerated(g, "Débil")
      == 0.6 * 0.7 * GradeGiven("Alta", "Alta", g) + 0.6 * 0.3 * GradeGiven("Alta", "Baja", g)
       + 0.4 * 0.7 * GradeGiven("Baja", "Alta", g) + 0.4 * 0.3 * GradeGiven("Baja", "Baja", g)
    ensures Enumerated(g, "Fuerte") + Enumerated(g, "Débil") > 0.0
  {
    TablesComplete();
  }

  lemma EvidenceSumsToOne()
    ensures Enumerated("A", "Fuerte") + Enumerated("A", "Débil") + Enumerated("B", "Fuerte") + Enumerated("B", "Débil") == 1.0
  {
    TablesComplete();
  }

  /** The script's numbers for G = A: T1 = {Alta: 0.54, Baja: 0.23}, T2 = {Fuerte: 0.3231,
      Débil: 0.1239}, the normaliser 0.447, and P(L = Fuerte | G = A) = 0.3231 / 0.447. */
  lemma ScriptValues()
    ensures OverDifficulty("Alta", GradeEvidence, 2) == 0.54 && OverDifficulty("Baja", GradeEvidence, 2) == 0.23
    ensures Enumerated(GradeEvidence, "Fuerte") == 0.3231 && Enumerated(GradeEvidence, "Débil") == 0.1239
    ensures Posterior(map["Fuerte" := 0.3231, "Débil" := 0.1239]) == Ok(0.3231 / 0.447)
  {
    TablesComplete();
    StepA(GradeEvidence);
  }
}
