/** Corpus tokenisation with sentence markers, unigram/bigram counting and the bigram estimate
    (001_Corpus.py). */
module Corpus {
  import opened Text
  import opened Counting

  const Start: string := "<INI>"
  const End: string := "<FIN>"

  /** `texto.lower().replace('.', '').replace(',', '')`. */
  function CleanText(t: string): (r: string)
    ensures IsLower(r)
    ensures '.' !in r && ',' !in r
    ensures forall c :: c in r <==> c in Lower(t) && c != '.' && c != ','
  {
    var r := Remove(Remove(Lower(t), '.'), ',');
    assert forall i :: 0 <= i < |r| ==> r[i] in Lower(t);
    r
  }

  /** The tokens one text contributes: the start marker, its words, the end marker. */
  function SentenceTokens(t: string): seq<string> {
    [Start] + Split(CleanText(t)) + [End]
  }

  /** `tokenizar_corpus(textos)`: the texts' tokens, in order. */
  function CorpusTokens(texts: seq<string>): seq<string> {
    if texts == [] then [] else CorpusTokens(texts[..|texts| - 1]) + SentenceTokens(texts[|texts| - 1])
  }

  /** Number of words of the cleaned texts, plus two markers per text. */
  function TokenTotal(texts: seq<string>): nat {
    if texts == [] then 0 else TokenTotal(texts[..|texts| - 1]) + |Split(CleanText(texts[|texts| - 1]))| + 2
  }

  /** The loop of `tokenizar_corpus`, extending `tokens` one text at a time. */
  method TokenizeCorpus(texts: seq<string>) returns (tokens: seq<string>)
    ensures tokens == CorpusTokens(texts)
  {
    tokens := [];
    var k := 0;
    while k < |texts|
      invariant k <= |texts|
      invariant tokens == CorpusTokens(texts[..k])
    {
      var words := Split(CleanText(texts[k]));
      assert texts[..k + 1][..k] == texts[..k];
      tokens := tokens + ([Start] + words + [End]);
      k := k + 1;
    }
    assert texts[..k] == texts;
  }

  /** The output holds every word of every text plus two markers per text. */
  lemma {:induction false} CorpusLength(texts: seq<string>)
    ensures |CorpusTokens(texts)| == TokenTotal(texts)
  {
    if texts != [] {
      CorpusLength(texts[..|texts| - 1]);
    }
  }

  /** A token that is not a marker is a word of a cleaned text: lower-case, whitespace-free,
      without '.' or ','. */
  predicate CleanToken(w: string) {
    IsWord(w) && IsLower(w) && '.' !in w && ',' !in w
  }

  lemma SentenceTokensClean(t: string)
    ensures forall k :: 1 <= k < |SentenceTokens(t)| - 1 ==> CleanToken(SentenceTokens(t)[k])
  {
    var c := CleanText(t);
    SplitLower(c);
    SplitTokensFromString(c, '.');
    SplitTokensFromString(c, ',');
    var ws := Split(c);
    forall k | 0 <= k < |ws| ensures CleanToken(ws[k]) {
      assert forall i :: 0 <= i < |ws[k]| ==> ws[k][i] != '.' && ws[k][i] != ',';
    }
  }

  /** Every token is a marker or a clean word, and each text starts with `<INI>` and ends with `<FIN>`. */
  lemma {:induction false} CorpusTokensClean(texts: seq<string>)
    ensures forall k :: 0 <= k < |CorpusTokens(texts)| ==>
      CorpusTokens(texts)[k] == Start || CorpusTokens(texts)[k] == End || CleanToken(CorpusTokens(texts)[k])
    ensures texts != [] ==> CorpusTokens(texts)[0] == Start
    ensures texts != [] ==> CorpusTokens(texts)[|CorpusTokens(texts)| - 1] == End
  {
    if texts != [] {
      var pre := CorpusTokens(texts[..|texts| - 1]);
      var last := SentenceTokens(texts[|texts| - 1]);
      CorpusTokensClean(texts[..|texts| - 1]);
      SentenceTokensClean(texts[|texts| - 1]);
      assert CorpusTokens(texts) == pre + last;
      forall k | 0 <= k < |pre + last|
        ensures (pre + last)[k] == Start || (pre + last)[k] == End || CleanToken((pre + last)[k])
      {
        if k >= |pre| {
          assert (pre + last)[k] == last[k - |pre|];
        }
      }
    }
  }

  /** The adjacent pairs `(s[i-1], s[i])`, left to right. */
  function Bigrams<T>(s: seq<T>): (r: seq<(T, T)>)
    ensures |r| == if |s| < 2 then 0 else |s| - 1
  {
    if |s| < 2 then [] else Bigrams(s[..|s| - 1]) + [(s[|s| - 2], s[|s| - 1])]
  }

  /** A pair is a bigram exactly when it occurs at two adjacent positions. */
  lemma {:induction false} BigramsAt<T>(s: seq<T>, i: nat)
    requires 1 <= i < |s|
    ensures Bigrams(s)[i - 1] == (s[i - 1], s[i])
  {
    if i < |s| - 1 {
      BigramsAt(s[..|s| - 1], i);
    }
  }

  /** The counting loop: one pass over TOKENS, bumping the unigram counter at every position
      and the bigram counter at every position after the first. */
  method CountNgrams(tokens: seq<string>) returns (unigrams: map<string, nat>, bigrams: map<(string, string), nat>)
    ensures Counts(unigrams, tokens)
    ensures Counts(bigrams, Bigrams(tokens))
  {
    unigrams := map[];
    bigrams := map[];
    assert tokens[..0] == [];
    var i := 0;
    while i < |tokens|
      invariant i <= |tokens|
      invariant Counts(unigrams, tokens[..i])
      invariant Counts(bigrams, Bigrams(tokens[..i]))
    {
      hide Counts, Bump, Bigrams;
      var token := tokens[i];
      assert tokens[..i + 1] == tokens[..i] + [token];
      BumpCounts(unigrams, tokens[..i], token);
      unigrams := Bump(unigrams, token);
      BigramsStep(tokens, i);
      if i > 0 {
        var bigram := (tokens[i - 1], token);
        BumpCounts(bigrams, Bigrams(tokens[..i]), bigram);
        bigrams := Bump(bigrams, bigram);
      }
      i := i + 1;
    }
    assert tokens[..i] == tokens;
  }

  /** Reading one more token adds the pair it closes, if any. */
  lemma BigramsStep<T>(tokens: seq<T>, i: nat)
    requires i < |tokens|
    ensures i == 0 ==> Bigrams(tokens[..i + 1]) == Bigrams(tokens[..i])
    ensures i > 0 ==> Bigrams(tokens[..i + 1]) == Bigrams(tokens[..i]) + [(tokens[i - 1], tokens[i])]
  {
    assert tokens[..i + 1][..i] == tokens[..i];
  }

  /** Summed over any listing of its keys, the unigram counter gives the number of tokens, and
      the bigram counter one less (every adjacent pair, sentence boundaries included). */
  lemma CounterTotals(tokens: seq<string>, unigrams: map<string, nat>, bigrams: map<(string, string), nat>,
                      words: seq<string>, pairs: seq<(string, string)>)
    requires tokens != []
    requires Counts(unigrams, tokens) && Counts(bigrams, Bigrams(tokens))
    requires Distinct(words) && forall w :: w in words <==> w in unigrams
    requires Distinct(pairs) && forall p :: p in pairs <==> p in bigrams
    ensures SumValues(unigrams, words) == |tokens|
    ensures SumValues(bigrams, pairs) == |tokens| - 1
  {
    SumOfCounter(unigrams, tokens, words);
    SumOfCounter(bigrams, Bigrams(tokens), pairs);
  }

  /** Between consecutive texts the pair (`<FIN>`, `<INI>`) is counted as a bigram. */
  lemma BoundaryBigram(texts: seq<string>)
    requires |texts| >= 2
    ensures (End, Start) in Bigrams(CorpusTokens(texts))
  {
    var pre := CorpusTokens(texts[..|texts| - 1]);
    var last := SentenceTokens(texts[|texts| - 1]);
    var s := CorpusTokens(texts);
    assert texts[..|texts| - 1] != [];
    CorpusTokensClean(texts[..|texts| - 1]);
    assert s == pre + last;
    assert s[|pre| - 1] == End && s[|pre|] == Start;
    BigramsAt(s, |pre|);
  }

  /** A pair's count never exceeds the count of its first word; a list ending in that word
      has one occurrence of it that starts no pair. */
  lemma {:induction false} BigramCountBound<T>(s: seq<T>, a: T, b: T)
    ensures Count(Bigrams(s), (a, b)) + (if s != [] && s[|s| - 1] == a then 1 else 0) <= Count(s, a)
  {
    if |s| >= 2 {
      var s' := s[..|s| - 1];
      BigramCountBound(s', a, b);
      CountAppend(Bigrams(s'), (s[|s| - 2], s[|s| - 1]), (a, b));
      assert s == s' + [s[|s| - 1]];
      CountAppend(s', s[|s| - 1], a);
    } else if |s| == 1 {
      assert s == [] + [s[0]];
      CountAppend([], s[0], a);
    }
  }

  /** The estimate together with the two counters after the lookups. */
  datatype Estimate = Estimate(p: real, unigrams: map<string, nat>, bigrams: map<(string, string), nat>)

  /** `probabilidad_bigrama(w_anterior, w_siguiente, unigramas, bigramas)`: the pair count over the
      previous word's count, 0.0 when the previous word was never seen. Both lookups go through
      the defaultdicts and so add missing keys with count 0. */
  function BigramProbability(prev: string, next: string, unigrams: map<string, nat>,
                             bigrams: map<(string, string), nat>): (r: Estimate)
    ensures r.unigrams == Touch(unigrams, prev) && r.bigrams == Touch(bigrams, (prev, next))
    ensures r.p >= 0.0
    ensures (prev !in unigrams || unigrams[prev] == 0) ==> r.p == 0.0
    ensures (prev, next) !in bigrams ==> r.p == 0.0
    ensures prev in unigrams && unigrams[prev] > 0 ==>
      r.p == (if (prev, next) in bigrams then bigrams[(prev, next)] else 0) as real / unigrams[prev] as real
  {
    var u := Touch(unigrams, prev);
    var b := Touch(bigrams, (prev, next));
    var before := u[prev];
    var pair := b[(prev, next)];
    if before == 0 then Estimate(0.0, u, b)
    else Estimate(pair as real / before as real, u, b)
  }

  /** On counters built from a token list the estimate is a probability. */
  lemma BigramProbabilityBounded(tokens: seq<string>, prev: string, next: string,
                                 unigrams: map<string, nat>, bigrams: map<(string, string), nat>)
    requires prev in unigrams ==> unigrams[prev] == Count(tokens, prev)
    requires (prev, next) in bigrams ==> bigrams[(prev, next)] == Count(Bigrams(tokens), (prev, next))
    ensures BigramProbability(prev, next, unigrams, bigrams).p <= 1.0
  {
    if prev in unigrams && unigrams[prev] > 0 && (prev, next) in bigrams {
      BigramCountBound(tokens, prev, next);
      RatioAtMostOne(bigrams[(prev, next)], unigrams[prev]);
    }
  }

  lemma RatioAtMostOne(p: nat, q: nat)
    requires p <= q && q > 0
    ensures p as real / q as real <= 1.0
  {
  }
}
