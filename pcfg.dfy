/** The probabilistic context-free grammar of 002_Gram_Prob_Indep_Contexto.py: a parse tree is
    scored by the product of the probabilities of the rules it applies. */
module Pcfg {
  import opened Reals

  /** One applied rule: the non-terminal, its production and the rule's probability. */
  datatype Rule = Rule(lhs: string, production: string, probability: real)

  /** PCFG_RULES: for every non-terminal, its productions with their probabilities. */
  const Grammar: map<string, seq<(string, real)>> := map[
    "S" := [("FN FV", 1.0)],
    "FN" := [("Det N", 0.8), ("FN PP", 0.2)],
    "FV" := [("V FN", 0.7), ("FV PP", 0.3)],
    "PP" := [("P FN", 1.0)],
    "Det" := [("el", 0.5), ("la", 0.5)],
    "N" := [("perro", 0.3), ("pelota", 0.3), ("telescopio", 0.4)],
    "V" := [("mira", 1.0)],
    "P" := [("con", 1.0)]]

  /** REGLAS_ARBOL_SIMPLE: the parse of "el perro mira la pelota", its syntactic rules followed
      by its lexical rules. */
  const SimpleTree: seq<Rule> := SimpleSyntax + SimpleLexicon

  const SimpleSyntax: seq<Rule> := [
    Rule("S", "FN FV", 1.0), Rule("FN", "Det N", 0.8), Rule("FV", "V FN", 0.7), Rule("FN", "Det N", 0.8)]

  const SimpleLexicon: seq<Rule> := [
    Rule("Det", "el", 0.5), Rule("N", "perro", 0.3), Rule("V", "mira", 1.0), Rule("Det", "la", 0.5),
    Rule("N", "pelota", 0.3)]

  /** REGLAS_ARBOL_COMPLEJO: an imagined longer parse, closed by a stand-in lexical rule. */
  const ComplexTree: seq<Rule> := [
    Rule("S", "FN FV", 1.0), Rule("FV", "FV PP", 0.3), Rule("FN", "Det N", 0.8), Rule("PP", "P FN", 1.0),
    Rule("FN", "FN PP", 0.2), Rule("Léxico", "Terminación", 0.005)]

  /** The product of the probabilities of the rules, multiplied in order from 1.0. */
  function Product(rules: seq<Rule>): real {
    if rules == [] then 1.0 else Product(rules[..|rules| - 1]) * rules[|rules| - 1].probability
  }

  /** `calcular_probabilidad_arbol`: the running product over the applied rules. */
  method TreeProbability(rules: seq<Rule>) returns (p: real)
    ensures p == Product(rules)
  {
    p := 1.0;
    for i := 0 to |rules|
      invariant p == Product(rules[..i])
    {
      assert rules[..i + 1][..i] == rules[..i];
      p := p * rules[i].probability;
    }
    assert rules[..|rules|] == rules;
  }

  /** The score of a tree made of two parts is the product of their scores. */
  lemma {:induction false} ProductAppend(a: seq<Rule>, b: seq<Rule>)
    ensures Product(a + b) == Product(a) * Product(b)
    decreases |b|
  {
    if b == [] {
      assert a + b == a;
    } else {
      var c := b[..|b| - 1];
      assert (a + b)[..|a + b| - 1] == a + c;
      ProductAppend(a, c);
    }
  }

  /** Taking one rule out of a tree divides its score by that rule's probability. */
  lemma ProductMiddle(pre: seq<Rule>, x: Rule, post: seq<Rule>)
    ensures Product(pre + [x] + post) == Product(pre + post) * x.probability
  {
    hide Product;
    var p, q, r := Product(pre), Product(post), x.probability;
    assert Product(pre + [x] + post) == (p * r) * q by {
      ProductSnoc(pre, x);
      ProductAppend(pre + [x], post);
    }
    assert Product(pre + post) == p * q by {
      ProductAppend(pre, post);
    }
    Reorder(p, q, r);
  }

  lemma ProductRemove(b: seq<Rule>, k: nat)
    requires k < |b|
    ensures Product(b) == Product(b[..k] + b[k + 1..]) * b[k].probability
  {
    hide Product;
    var pre, x, post := b[..k], b[k], b[k + 1..];
    assert b == pre + [x] + post;
    ProductMiddle(pre, x, post);
  }

  /** Appending a rule multiplies the score by its probability. */
  lemma ProductSnoc(rules: seq<Rule>, x: Rule)
    ensures Product(rules + [x]) == Product(rules) * x.probability
  {
    assert (rules + [x])[..|rules|] == rules;
  }

  lemma Reorder(p: real, q: real, r: real)
    ensures (p * r) * q == (p * q) * r
  {
  }

  /** The last rule of a tree occurs in any reordering of it, and what is left on both sides is
      again a reordering. */
  lemma FindRule(a: seq<Rule>, b: seq<Rule>) returns (k: nat)
    requires a != [] && multiset(a) == multiset(b)
    ensures k < |b| && b[k] == a[|a| - 1]
    ensures multiset(a[..|a| - 1]) == multiset(b[..k] + b[k + 1..])
  {
    var n := |a| - 1;
    var x := a[n];
    assert x in multiset(b);
    k :| 0 <= k < |b| && b[k] == x;
    assert a == a[..n] + [x];
    assert b == b[..k] + [x] + b[k + 1..];
    assert multiset(a[..n]) == multiset(a) - multiset{x};
    assert multiset(b[..k] + b[k + 1..]) == multiset(b) - multiset{x};
  }

  /** The order in which the rules are listed does not matter. */
  lemma {:induction false} ProductPermutation(a: seq<Rule>, b: seq<Rule>)
    requires multiset(a) == multiset(b)
    ensures Product(a) == Product(b)
    decreases |a|
  {
    hide Product;
    if a != [] {
      var k := FindRule(a, b);
      var n := |a| - 1;
      var rest, x, others := a[..n], a[n], b[..k] + b[k + 1..];
      ProductPermutation(rest, others);
      assert a == rest + [x];
      ProductSnoc(rest, x);
      ProductRemove(b, k);
    } else {
      assert b == [] by {
        assert |b| == |multiset(b)| == 0;
      }
    }
  }

  /** Only the probabilities count: the non-terminals and productions play no part. */
  lemma {:induction false} ProductIgnoresLabels(a: seq<Rule>, b: seq<Rule>)
    requires |a| == |b| && forall i :: 0 <= i < |a| ==> a[i].probability == b[i].probability
    ensures Product(a) == Product(b)
    decreases |a|
  {
    if a != [] {
      ProductIgnoresLabels(a[..|a| - 1], b[..|b| - 1]);
    }
  }

  /** Rules with probabilities in [0, 1] give a score in [0, 1], and every further rule can only
      lower it. */
  lemma {:induction false} ProductInUnit(rules: seq<Rule>)
    requires forall i :: 0 <= i < |rules| ==> 0.0 <= rules[i].probability <= 1.0
    ensures 0.0 <= Product(rules) <= 1.0
    ensures rules != [] ==> Product(rules) <= Product(rules[..|rules| - 1])
  {
    if rules != [] {
      var prefix := rules[..|rules| - 1];
      ProductInUnit(prefix);
      var p := rules[|rules| - 1].probability;
      MulNonNegative(Product(prefix), p);
      MulMonotone(p, 1.0, Product(prefix));
    }
  }

  /** A rule the grammar licenses: its production, with its probability, is listed under its
      non-terminal. */
  predicate Licensed(r: Rule) {
    r.lhs in Grammar && (r.production, r.probability) in Grammar[r.lhs]
  }

  /** The sum of the probabilities of a list of productions. */
  function Mass(productions: seq<(string, real)>): real {
    if productions == [] then 0.0 else Mass(productions[..|productions| - 1]) + productions[|productions| - 1].1
  }

  /** The probabilities of the productions of every non-terminal add up to 1. */
  lemma GrammarIsProper()
    ensures forall lhs :: lhs in Grammar ==> Mass(Grammar[lhs]) == 1.0
  {
    forall lhs | lhs in Grammar
      ensures Mass(Grammar[lhs]) == 1.0
    {
      var ps := Grammar[lhs];
      if |ps| == 3 {
        assert ps[..2][..1] == [ps[0]] && ps[..1] == [ps[0]];
        assert [ps[0]][..0] == [];
        assert Mass(ps[..1]) == ps[0].1;
        assert Mass(ps[..2]) == ps[0].1 + ps[1].1;
      } else if |ps| == 2 {
        assert ps[..1] == [ps[0]] && [ps[0]][..0] == [];
      } else {
        assert ps[..0] == [];
      }
    }
  }

  /** The simple tree uses only grammar rules, and the complex tree's last rule is not one. */
  lemma TreesAgainstGrammar()
    ensures forall i :: 0 <= i < |SimpleTree| ==> Licensed(SimpleTree[i])
    ensures forall i :: 0 <= i < |ComplexTree| - 1 ==> Licensed(ComplexTree[i])
    ensures !Licensed(ComplexTree[|ComplexTree| - 1])
  {
  }

  /** Every prefix of a tree is scored by the product of its own rules. */
  lemma PrefixProducts(rules: seq<Rule>, k: nat)
    requires 0 < k <= |rules|
    ensures Product(rules[..k]) == Product(rules[..k - 1]) * rules[k - 1].probability
  {
    assert rules[..k][..k - 1] == rules[..k - 1];
  }

  /** The script's numbers: the simple tree scores 0.01008, the complex one 0.00024, so the
      parser picks the simple tree. */
  lemma TreeScores()
    ensures Product(SimpleTree) == 0.01008
    ensures Product(ComplexTree) == 0.00024
    ensures Product(SimpleTree) > Product(ComplexTree)
  {
    SimpleTreeScore();
    ComplexTreeScore();
  }

  lemma SimpleTreeScore()
    ensures Product(SimpleTree) == 0.01008
  {
    SyntaxScore();
    LexiconScore();
    ProductAppend(SimpleSyntax, SimpleLexicon);
  }

  lemma SyntaxScore()
    ensures Product(SimpleSyntax) == 0.448
  {
    var s := SimpleSyntax;
    assert s[..0] == [] && s[..|s|] == s;
    assert Product([]) == 1.0;
    hide Product;
    PrefixProducts(s, 1);
    PrefixProducts(s, 2);
    PrefixProducts(s, 3);
    PrefixProducts(s, 4);
  }

  lemma LexiconScore()
    ensures Product(SimpleLexicon) == 0.0225
  {
    var s := SimpleLexicon;
    assert s[..0] == [] && s[..|s|] == s;
    assert Product([]) == 1.0;
    hide Product;
    PrefixProducts(s, 1);
    PrefixProducts(s, 2);
    PrefixProducts(s, 3);
    PrefixProducts(s, 4);
    PrefixProducts(s, 5);
  }

  lemma ComplexTreeScore()
    ensures Product(ComplexTree) == 0.00024
  {
    var c := ComplexTree;
    assert c[..0] == [] && c[..|c|] == c;
    assert Product([]) == 1.0;
    hide Product;
    PrefixProducts(c, 1);
    assert Product(c[..1]) == 1.0;
    PrefixProducts(c, 2);
    assert Product(c[..2]) == 0.3;
    PrefixProducts(c, 3);
    assert Product(c[..3]) == 0.24;
    PrefixProducts(c, 4);
    assert Product(c[..4]) == 0.24;
    PrefixProducts(c, 5);
    assert Product(c[..5]) == 0.048;
    PrefixProducts(c, 6);
    assert Product(c[..6]) == 0.00024;
  }
}
