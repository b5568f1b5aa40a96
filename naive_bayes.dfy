/** Naive Bayes spam filter with Laplace smoothing (002_Naive_Bayes.py): class and word counters
    built from labelled messages, priors, smoothed word likelihoods and the spam/ham decision. */
module NaiveBayes {
  import opened Wrappers
  import opened Text
  import opened Counting
  import opened Reals

  const Spam: string := "spam"
  const Ham: string := "ham"

  /** ALPHA, the Laplace smoothing constant. */
  const Alpha: nat := 1

  /** `vocabulario = set(" ".join(mensajes).split())`: every token of every message. */
  function Vocabulary(messages: seq<string>): (v: set<string>)
    ensures forall w :: w in v <==> w in AllTokens(messages)
  {
    SplitJoinedTexts(messages);
    set w | w in Split(Join(" ", messages))
  }

  /** Number of (message, label) pairs `zip` produces. */
  function ZipLength(messages: seq<string>, labels: seq<string>): nat {
    if |messages| < |labels| then |messages| else |labels|
  }

  /** The tokens, in order, of the messages labelled `c` among the first `n` zipped pairs. */
  function ClassWords(messages: seq<string>, labels: seq<string>, n: nat, c: string): seq<string>
    requires n <= |messages| && n <= |labels|
  {
    if n == 0 then []
    else ClassWords(messages, labels, n - 1, c) + (if labels[n - 1] == c then Split(messages[n - 1]) else [])
  }

  /** The counters hold class `c`'s tokens `ws`: the class has an entry exactly when it has a
      token, its word counter counts `ws` and its total is `|ws|`. */
  predicate Trained(words: map<string, map<string, nat>>, totals: map<string, nat>, c: string, ws: seq<string>) {
    && (c in words <==> ws != [])
    && (c in totals <==> ws != [])
    && (c in words ==> Counts(words[c], ws))
    && (c in totals ==> totals[c] == |ws|)
  }

  /** `conteo_clases`: one `+= 1` per label. */
  method CountClasses(labels: seq<string>) returns (classes: map<string, nat>)
    ensures Counts(classes, labels)
  {
    classes := map[];
    var i := 0;
    while i < |labels|
      invariant i <= |labels|
      invariant Counts(classes, labels[..i])
    {
      BumpCounts(classes, labels[..i], labels[i]);
      classes := Bump(classes, labels[i]);
      assert labels[..i + 1] == labels[..i] + [labels[i]];
      i := i + 1;
    }
    assert labels[..i] == labels;
  }

  /** The inner loop over one message's tokens: both counters of `tag` go up once per token,
      and the counters of every other class stay as they were. */
  method CountMessage(words0: map<string, map<string, nat>>, totals0: map<string, nat>, tag: string,
                      tokens: seq<string>, ghost have: seq<string>)
    returns (words: map<string, map<string, nat>>, totals: map<string, nat>)
    requires Trained(words0, totals0, tag, have)
    ensures Trained(words, totals, tag, have + tokens)
    ensures forall c :: c != tag ==> (c in words <==> c in words0) && (c in totals <==> c in totals0)
    ensures forall c :: c != tag && c in words ==> words[c] == words0[c]
    ensures forall c :: c != tag && c in totals ==> totals[c] == totals0[c]
  {
    hide Count, Bump, Trained;
    words, totals := words0, totals0;
    assert have + tokens[..0] == have;
    var j := 0;
    while j < |tokens|
      invariant j <= |tokens|
      invariant Trained(words, totals, tag, have + tokens[..j])
      invariant forall c :: c != tag ==> (c in words <==> c in words0) && (c in totals <==> c in totals0)
      invariant forall c :: c != tag && c in words ==> words[c] == words0[c]
      invariant forall c :: c != tag && c in totals ==> totals[c] == totals0[c]
    {
      var w := tokens[j];
      ghost var seen := have + tokens[..j];
      var inner := if tag in words then words[tag] else map[];
      TrainedStep(words, totals, tag, seen, w);
      words := words[tag := Bump(inner, w)];
      totals := totals[tag := (if tag in totals then totals[tag] else 0) + 1];
      assert seen + [w] == have + tokens[..j + 1];
      j := j + 1;
    }
    assert tokens[..j] == tokens;
  }

  /** Counting one more word of class `tag` in both counters keeps them trained. */
  lemma TrainedStep(words: map<string, map<string, nat>>, totals: map<string, nat>, tag: string,
                    seen: seq<string>, w: string)
    requires Trained(words, totals, tag, seen)
    ensures Trained(words[tag := Bump(if tag in words then words[tag] else map[], w)],
                    totals[tag := (if tag in totals then totals[tag] else 0) + 1], tag, seen + [w])
  {
    var inner := if tag in words then words[tag] else map[];
    assert Counts(inner, seen);
    BumpCounts(inner, seen, w);
  }

  /** `conteo_palabras_por_clase` and `conteo_total_palabras_por_clase`: for every zipped
      (message, label) pair and every token of the message, both counters of the label go up. */
  method CountWords(messages: seq<string>, labels: seq<string>)
    returns (words: map<string, map<string, nat>>, totals: map<string, nat>)
    ensures forall c :: Trained(words, totals, c, ClassWords(messages, labels, ZipLength(messages, labels), c))
  {
    words := map[];
    totals := map[];
    var n := ZipLength(messages, labels);
    var i := 0;
    while i < n
      invariant i <= n
      invariant forall c :: Trained(words, totals, c, ClassWords(messages, labels, i, c))
    {
      var tag := labels[i];
      var tokens := Split(messages[i]);
      ghost var before := ClassWords(messages, labels, i, tag);
      ghost var words0, totals0 := words, totals;
      words, totals := CountMessage(words, totals, tag, tokens, before);
      ghost var next := i + 1;
      forall c
        ensures Trained(words, totals, c, ClassWords(messages, labels, next, c))
      {
        if c == tag {
          assert ClassWords(messages, labels, next, c) == before + tokens;
        } else {
          assert ClassWords(messages, labels, next, c) == ClassWords(messages, labels, i, c) + [];
          assert ClassWords(messages, labels, next, c) == ClassWords(messages, labels, i, c);
        }
      }
      i := i + 1;
    }
  }

  /** A class's word total is the sum of its per-word counts, the number of its tokens. */
  lemma TotalIsSumOfWordCounts(words: map<string, map<string, nat>>, totals: map<string, nat>, c: string,
                               ws: seq<string>, ks: seq<string>)
    requires Trained(words, totals, c, ws) && c in words
    requires Distinct(ks) && forall k :: k in ks <==> k in words[c]
    ensures c in totals && SumValues(words[c], ks) == totals[c] == |ws|
  {
    CountsTotal(words[c], ws, ks);
  }

  /** The class tokens are tokens of the training messages. */
  lemma {:induction false} ClassWordsInVocabulary(messages: seq<string>, labels: seq<string>, n: nat, c: string, w: string)
    requires n <= |messages| && n <= |labels|
    requires w in ClassWords(messages, labels, n, c)
    ensures w in Vocabulary(messages)
  {
    if w in ClassWords(messages, labels, n - 1, c) {
      ClassWordsInVocabulary(messages, labels, n - 1, c, w);
    } else {
      TokenOfMessage(messages, n - 1, w);
    }
  }

  lemma {:induction false} TokenOfMessage(messages: seq<string>, i: nat, w: string)
    requires i < |messages| && w in Split(messages[i])
    ensures w in AllTokens(messages)
  {
    if i > 0 {
      TokenOfMessage(messages[1..], i - 1, w);
    }
  }

  /** P_spam and P_ham: the class counts (0 for an absent class) over the number of messages. */
  function Priors(classes: map<string, nat>, total: nat): (r: Result<(real, real)>)
    ensures r.Err? <==> total == 0
    ensures r.Err? ==> r.error == ZeroDivisionError
  {
    if total == 0 then Err(ZeroDivisionError)
    else
      var spam := if Spam in classes then classes[Spam] else 0;
      var ham := if Ham in classes then classes[Ham] else 0;
      Ok((spam as real / total as real, ham as real / total as real))
  }

  /** With one label per message and only the labels spam and ham, the class counts add up to the
      number of messages and the two priors are probabilities summing to 1. */
  lemma PriorsSumToOne(messages: seq<string>, labels: seq<string>, classes: map<string, nat>)
    requires Counts(classes, labels)
    requires |labels| == |messages| > 0
    requires forall i :: 0 <= i < |labels| ==> labels[i] == Spam || labels[i] == Ham
    ensures Priors(classes, |messages|).Ok?
    ensures 0.0 <= Priors(classes, |messages|).value.0 <= 1.0
    ensures 0.0 <= Priors(classes, |messages|).value.1 <= 1.0
    ensures Priors(classes, |messages|).value.0 + Priors(classes, |messages|).value.1 == 1.0
  {
    TwoLabels(labels);
    var spam := if Spam in classes then classes[Spam] else 0;
    var ham := if Ham in classes then classes[Ham] else 0;
    assert spam == Count(labels, Spam) && ham == Count(labels, Ham);
    var n := |messages| as real;
    FractionSum(spam as real, ham as real, n);
    assert (spam + ham) as real == n;
    SelfRatio(n);
    RatioInUnit(spam as real, n);
    RatioInUnit(ham as real, n);
  }

  lemma {:induction false} TwoLabels(labels: seq<string>)
    requires forall i :: 0 <= i < |labels| ==> labels[i] == Spam || labels[i] == Ham
    ensures Count(labels, Spam) + Count(labels, Ham) == |labels|
  {
    if labels != [] {
      TwoLabels(labels[..|labels| - 1]);
    }
  }

  /** `conteo_palabras[clase].get(palabra, 0)`. */
  function WordCount(words: map<string, map<string, nat>>, c: string, w: string): nat {
    if c in words && w in words[c] then words[c][w] else 0
  }

  /** `total_palabras_clase[clase]`, 0 for a class with no entry. */
  function ClassTotal(totals: map<string, nat>, c: string): nat {
    if c in totals then totals[c] else 0
  }

  /** `calcular_probabilidad_palabra_dada_clase`: (count + ALPHA) / (total + ALPHA·|V|). */
  function WordProbability(w: string, c: string, words: map<string, map<string, nat>>,
                           totals: map<string, nat>, vocabSize: nat): (r: Result<real>)
    ensures r.Err? <==> ClassTotal(totals, c) + Alpha * vocabSize == 0
    ensures r.Err? ==> r.error == ZeroDivisionError
    ensures r.Ok? ==> 0.0 < r.value
    ensures r.Ok? ==>
      r.value * (ClassTotal(totals, c) + Alpha * vocabSize) as real == (WordCount(words, c, w) + Alpha) as real
  {
    var denominator := ClassTotal(totals, c) + Alpha * vocabSize;
    if denominator == 0 then Err(ZeroDivisionError)
    else Ok((WordCount(words, c, w) + Alpha) as real / denominator as real)
  }

  /** Trained counters give each word the number of times class `c` used it. */
  lemma WordCountIsCount(words: map<string, map<string, nat>>, totals: map<string, nat>, c: string,
                         ws: seq<string>, w: string)
    requires Trained(words, totals, c, ws)
    ensures WordCount(words, c, w) == Count(ws, w)
    ensures ClassTotal(totals, c) == |ws|
  {
    if c in words && w !in words[c] {
      assert w !in ws;
    }
  }

  /** Sum of the smoothed probabilities of the words `vs`. */
  function ProbabilitySum(vs: seq<string>, c: string, words: map<string, map<string, nat>>,
                          totals: map<string, nat>, vocabSize: nat): real
    requires ClassTotal(totals, c) + Alpha * vocabSize != 0
  {
    if vs == [] then 0.0
    else
      ProbabilitySum(vs[..|vs| - 1], c, words, totals, vocabSize)
      + WordProbability(vs[|vs| - 1], c, words, totals, vocabSize).value
  }

  lemma {:induction false} ProbabilitySumIsRatio(vs: seq<string>, c: string, words: map<string, map<string, nat>>,
                                                 totals: map<string, nat>, vocabSize: nat, ws: seq<string>)
    requires Trained(words, totals, c, ws)
    requires ClassTotal(totals, c) + Alpha * vocabSize != 0
    ensures ProbabilitySum(vs, c, words, totals, vocabSize)
         == (SumCounts(ws, vs) + |vs|) as real / (ClassTotal(totals, c) + Alpha * vocabSize) as real
  {
    if vs != [] {
      var init := vs[..|vs| - 1];
      var w := vs[|vs| - 1];
      ProbabilitySumIsRatio(init, c, words, totals, vocabSize, ws);
      WordCountIsCount(words, totals, c, ws, w);
      var d := (ClassTotal(totals, c) + Alpha * vocabSize) as real;
      var a := (SumCounts(ws, init) + |init|) as real;
      var b := (Count(ws, w) + 1) as real;
      FractionSum(a, b, d);
    }
  }

  /** Over the training vocabulary, the smoothed probabilities of any class with training
      tokens sum to 1. */
  lemma ProbabilitiesSumToOne(messages: seq<string>, labels: seq<string>, words: map<string, map<string, nat>>,
                              totals: map<string, nat>, c: string, vs: seq<string>)
    requires Trained(words, totals, c, ClassWords(messages, labels, ZipLength(messages, labels), c))
    requires Distinct(vs) && forall w :: w in vs <==> w in Vocabulary(messages)
    requires c in totals
    ensures ClassTotal(totals, c) + Alpha * |Vocabulary(messages)| != 0
    ensures ProbabilitySum(vs, c, words, totals, |Vocabulary(messages)|) == 1.0
  {
    var ws := ClassWords(messages, labels, ZipLength(messages, labels), c);
    DistinctCardinality(vs, Vocabulary(messages));
    forall w | w in ws ensures w in vs {
      ClassWordsInVocabulary(messages, labels, ZipLength(messages, labels), c, w);
    }
    SumCountsIsLength(ws, vs);
    ProbabilitySumIsRatio(vs, c, words, totals, |Vocabulary(messages)|, ws);
    WordCountIsCount(words, totals, c, ws, c);
    assert (SumCounts(ws, vs) + |vs|) as real == (ClassTotal(totals, c) + Alpha * |Vocabulary(messages)|) as real;
    SelfRatio((SumCounts(ws, vs) + |vs|) as real);
  }

  /** A duplicate-free listing of a set has the set's size. */
  lemma {:induction false} DistinctCardinality(vs: seq<string>, s: set<string>)
    requires Distinct(vs) && forall w :: w in vs <==> w in s
    ensures |s| == |vs|
  {
    if vs != [] {
      var init := vs[..|vs| - 1];
      var w := vs[|vs| - 1];
      assert w !in init by {
        forall i | 0 <= i < |init| ensures init[i] != w {
          assert init[i] == vs[i];
        }
      }
      forall x ensures x in init <==> x in s - {w} {
        if x in init {
          var i :| 0 <= i < |init| && init[i] == x;
          assert vs[i] == x;
        }
        if x in s - {w} {
          assert x in vs;
          var i :| 0 <= i < |vs| && vs[i] == x;
          assert i < |init|;
          assert init[i] == x;
        }
      }
      DistinctCardinality(init, s - {w});
    }
  }

  /** A class score: the prior times the smoothed probability of every token, multiplied in
      token order, the first failure propagated. */
  function Score(prior: real, ws: seq<string>, c: string, words: map<string, map<string, nat>>,
                 totals: map<string, nat>, vocabSize: nat): (r: Result<real>)
    ensures r.Err? <==> ws != [] && ClassTotal(totals, c) + Alpha * vocabSize == 0
    ensures r.Err? ==> r.error == ZeroDivisionError
    ensures r.Ok? && prior > 0.0 ==> r.value > 0.0
    ensures r.Ok? && prior == 0.0 ==> r.value == 0.0
  {
    if ws == [] then Ok(prior)
    else
      var init :- Score(prior, ws[..|ws| - 1], c, words, totals, vocabSize);
      var p :- WordProbability(ws[|ws| - 1], c, words, totals, vocabSize);
      assert prior > 0.0 ==> Mul(init, p) > 0.0 by {
        if prior > 0.0 { ProductPositive(init, p); }
      }
      assert prior == 0.0 ==> Mul(init, p) == 0.0 by {
        if prior == 0.0 { MulZero(p); }
      }
      Ok(Mul(init, p))
  }

  /** The decision rule: spam only when its score is strictly greater. */
  function Decide(spamScore: real, hamScore: real): (verdict: string)
    ensures verdict == Spam <==> spamScore > hamScore
    ensures verdict == Spam || verdict == Ham
  {
    if spamScore > hamScore then Spam else Ham
  }

  /** `clasificar_naive_bayes`, with each log score replaced by the product it is the logarithm
      of; the comparison of the logs and of the products agree, as the logarithm is increasing. */
  method Classify(message: string, pSpam: real, pHam: real, words: map<string, map<string, nat>>,
                  totals: map<string, nat>, vocabulary: set<string>)
    returns (r: Result<(string, real, real)>)
    ensures r.Err? <==> Score(pSpam, Split(message), Spam, words, totals, |vocabulary|).Err?
                        || Score(pHam, Split(message), Ham, words, totals, |vocabulary|).Err?
    ensures r.Err? ==> r.error == ZeroDivisionError
    ensures r.Ok? ==>
      && r.value.1 == Score(pSpam, Split(message), Spam, words, totals, |vocabulary|).value
      && r.value.2 == Score(pHam, Split(message), Ham, words, totals, |vocabulary|).value
      && r.value.0 == Decide(r.value.1, r.value.2)
  {
    var tokens := Split(message);
    var vocabSize := |vocabulary|;
    var spamScore :- ClassScore(pSpam, tokens, Spam, words, totals, vocabSize);
    var hamScore :- ClassScore(pHam, tokens, Ham, words, totals, vocabSize);
    r := Ok((Decide(spamScore, hamScore), spamScore, hamScore));
  }

  /** One of the two scoring loops: the prior multiplied by each token's probability in turn,
      stopping at the first failure. */
  method ClassScore(prior: real, tokens: seq<string>, c: string, words: map<string, map<string, nat>>,
                    totals: map<string, nat>, vocabSize: nat) returns (r: Result<real>)
    ensures r == Score(prior, tokens, c, words, totals, vocabSize)
  {
    hide Mul, WordProbability;
    var score := prior;
    var i := 0;
    while i < |tokens|
      invariant i <= |tokens|
      invariant Score(prior, tokens[..i], c, words, totals, vocabSize) == Ok(score)
    {
      assert tokens[..i + 1][..i] == tokens[..i];
      var p := WordProbability(tokens[i], c, words, totals, vocabSize);
      if p.Err? {
        assert tokens != [];
        return Err(p.error);
      }
      score := Mul(score, p.value);
      i := i + 1;
    }
    assert tokens[..i] == tokens;
    r := Ok(score);
  }

  /** A token neither class has seen scales both scores by the same factor 1/(total + |V|) when
      the class totals are equal, so it cannot change the decision. */
  lemma UnseenWordKeepsDecision(ws: seq<string>, w: string, words: map<string, map<string, nat>>,
                                totals: map<string, nat>, vocabSize: nat, pSpam: real, pHam: real)
    requires WordCount(words, Spam, w) == 0 && WordCount(words, Ham, w) == 0
    requires ClassTotal(totals, Spam) == ClassTotal(totals, Ham) && ClassTotal(totals, Spam) + vocabSize > 0
    ensures Score(pSpam, ws + [w], Spam, words, totals, vocabSize).Ok?
    ensures Score(pHam, ws + [w], Ham, words, totals, vocabSize).Ok?
    ensures Decide(Score(pSpam, ws + [w], Spam, words, totals, vocabSize).value,
                   Score(pHam, ws + [w], Ham, words, totals, vocabSize).value)
         == Decide(Score(pSpam, ws, Spam, words, totals, vocabSize).value,
                   Score(pHam, ws, Ham, words, totals, vocabSize).value)
  {
    assert (ws + [w])[..|ws|] == ws;
    var q := WordProbability(w, Spam, words, totals, vocabSize).value;
    assert q == WordProbability(w, Ham, words, totals, vocabSize).value;
    ScaleKeepsOrder(Score(pSpam, ws, Spam, words, totals, vocabSize).value,
                    Score(pHam, ws, Ham, words, totals, vocabSize).value, q);
  }
}
