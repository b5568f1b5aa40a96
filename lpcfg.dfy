/** The lexicalised grammar of 003_Gram_Prob_Lexical.py: the probability of a verb-phrase rule
    depends on the head noun of the subject, so that subject and verb agree in number. */
module Lpcfg {
  import opened Wrappers
  import opened Reals

  /** The name of the rule that expands the verb phrase into the verb v. */
  function RuleName(v: string): (r: string)
    ensures |r| == |v| + 9 && r[8..|r| - 1] == v
  {
    "FV -> V(" + v + ")"
  }

  /** Different verbs give different rule names. */
  lemma RuleNameInjective(v: string, w: string)
    requires RuleName(v) == RuleName(w)
    ensures v == w
  {
    var r := RuleName(v);
    assert v == r[8..|r| - 1] == w;
  }

  /** LPCFG_REGLAS_FV: P(FV -> V(v) | head noun). */
  const VerbRules: map<string, map<string, real>> := map[
    "perro" := map[RuleName("mira") := 0.95, RuleName("miran") := 0.05],
    "perros" := map[RuleName("mira") := 0.10, RuleName("miran") := 0.90]]

  /** REGLAS_LEXICAS['N']. */
  const Nouns: map<string, real> := map["perro" := 0.6, "perros" := 0.4]

  /** REGLAS_LEXICAS['V']. */
  const Verbs: map<string, real> := map["mira" := 0.5, "miran" := 0.5]

  /** The heads and verbs the tables know about. */
  predicate KnownHead(h: string) {
    h == "perro" || h == "perros"
  }

  predicate KnownVerb(v: string) {
    v == "mira" || v == "miran"
  }

  /** The verb-phrase rule exists exactly for a known head and a known verb. */
  lemma RuleExists(head: string, verb: string)
    ensures head in VerbRules && RuleName(verb) in VerbRules[head] <==> KnownHead(head) && KnownVerb(verb)
  {
    if head in VerbRules && RuleName(verb) in VerbRules[head] {
      var r := RuleName(verb);
      assert r == RuleName("mira") || r == RuleName("miran");
      if r == RuleName("mira") {
        RuleNameInjective(verb, "mira");
      } else {
        RuleNameInjective(verb, "miran");
      }
    }
  }

  /** `calcular_probabilidad_frase(head, verb)`: P(FV -> V(verb) | head) P(N -> head)
      P(V -> verb), and 0.0 when the verb-phrase rule is not defined. A missing lexical entry
      would be a KeyError the function does not catch. */
  function PhraseProbability(head: string, verb: string): (r: Result<real>)
    ensures r.Err? ==> r.error == KeyError
    ensures r.Ok? && (head !in VerbRules || RuleName(verb) !in VerbRules[head]) ==> r.value == 0.0
    ensures r.Ok? && head in VerbRules && RuleName(verb) in VerbRules[head] ==>
      r.value == VerbRules[head][RuleName(verb)] * Nouns[head] * Verbs[verb]
  {
    if head !in VerbRules || RuleName(verb) !in VerbRules[head] then Ok(0.0)
    else if head !in Nouns then Err(KeyError)
    else if verb !in Verbs then Err(KeyError)
    else Ok(VerbRules[head][RuleName(verb)] * Nouns[head] * Verbs[verb])
  }

  /** The uncaught KeyError never happens: every head and verb with a rule has a lexical entry.
      The phrase is positive exactly when both words are known, and 0.0 otherwise. */
  lemma PhraseTotal(head: string, verb: string)
    ensures PhraseProbability(head, verb).Ok?
    ensures PhraseProbability(head, verb).value > 0.0 <==> KnownHead(head) && KnownVerb(verb)
    ensures PhraseProbability(head, verb).value < 1.0
  {
    RuleExists(head, verb);
    if KnownHead(head) && KnownVerb(verb) {
      var p, n, v := VerbRules[head][RuleName(verb)], Nouns[head], Verbs[verb];
      assert 0.0 < p < 1.0 && 0.0 < n < 1.0 && 0.0 < v < 1.0;
      ProductPositive(p, n);
      ProductPositive(Mul(p, n), v);
      MulMonotone(p, 1.0, n);
      MulMonotone(Mul(p, n), 1.0, v);
    }
  }

  /** For each head, the verb-phrase rules are a distribution, and so are the lexical tables. */
  lemma TablesAreDistributions()
    ensures forall h :: KnownHead(h) ==> VerbRules[h][RuleName("mira")] + VerbRules[h][RuleName("miran")] == 1.0
    ensures Nouns["perro"] + Nouns["perros"] == 1.0 && Verbs["mira"] + Verbs["miran"] == 1.0
  {
  }

  /** The verb that agrees with the head. */
  function Agreeing(head: string): string
    requires KnownHead(head)
  {
    if head == "perro" then "mira" else "miran"
  }

  /** Agreement wins: for either head the agreeing verb scores higher than the other one. */
  lemma AgreementPreferred(head: string)
    requires KnownHead(head)
    ensures var other := if Agreeing(head) == "mira" then "miran" else "mira";
      PhraseProbability(head, Agreeing(head)).value > PhraseProbability(head, other).value
  {
  }

  /** The script's three phrases: "perro mira" 0.285, "perro miran" 0.015, "perros miran" 0.18. */
  lemma ScriptValues()
    ensures PhraseProbability("perro", "mira") == Ok(0.285)
    ensures PhraseProbability("perro", "miran") == Ok(0.015)
    ensures PhraseProbability("perros", "miran") == Ok(0.18)
  {
  }
}
