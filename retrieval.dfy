/** The vector-space retrieval pipeline of 004_Recuperacion_Datos.py: stop-word filtering, the
    sorted vocabulary and its index, term-frequency counts, document frequency, the zero-norm
    guard of the cosine and the ranking. */
module Retrieval {
  import opened Text
  import opened Counting
  import opened Reals

  /** STOP_WORDS. */
  const StopWords: set<string> := {"el", "la", "y", "en", "no", "con"}

  /** The tokens of `ts` that are not stop words, in order. */
  function DropStopWords(ts: seq<string>): (r: seq<string>)
    ensures |r| <= |ts|
    ensures forall w :: w in r <==> w in ts && w !in StopWords
  {
    if ts == [] then [] else (if ts[0] in StopWords then [] else [ts[0]]) + DropStopWords(ts[1..])
  }

  /** `preprocesar(texto)`: the lower-cased whitespace tokens that are not stop words. */
  function Preprocess(text: string): (r: seq<string>)
    ensures forall w :: w in r <==> w in Split(Lower(text)) && w !in StopWords
    ensures forall k :: 0 <= k < |r| ==> IsWord(r[k]) && IsLower(r[k])
  {
    SplitLower(Lower(text));
    DropStopWordsKeepsTokens(Split(Lower(text)));
    DropStopWords(Split(Lower(text)))
  }

  /** Filtering keeps only tokens of the input, so what holds of every input token holds of
      every kept one. */
  lemma {:induction false} DropStopWordsKeepsTokens(ts: seq<string>)
    requires forall k :: 0 <= k < |ts| ==> IsWord(ts[k]) && IsLower(ts[k])
    ensures forall k :: 0 <= k < |DropStopWords(ts)| ==>
      IsWord(DropStopWords(ts)[k]) && IsLower(DropStopWords(ts)[k])
  {
    if ts != [] {
      DropStopWordsKeepsTokens(ts[1..]);
    }
  }

  /** Filtering keeps every other token with its multiplicity and removes every stop word. */
  lemma {:induction false} DropStopWordsCount(ts: seq<string>, w: string)
    ensures Count(DropStopWords(ts), w) == if w in StopWords then 0 else Count(ts, w)
  {
    if ts != [] {
      DropStopWordsCount(ts[1..], w);
      var head := if ts[0] in StopWords then [] else [ts[0]];
      CountConcat(head, DropStopWords(ts[1..]), w);
      assert ts == [ts[0]] + ts[1..];
      CountConcat([ts[0]], ts[1..], w);
      assert Count([ts[0]], w) == (if ts[0] == w then 1 else 0) by {
        assert [ts[0]] == [] + [ts[0]];
        CountAppend([], ts[0], w);
      }
      if head == [] {
        assert [] + DropStopWords(ts[1..]) == DropStopWords(ts[1..]);
      } else {
        assert head == [] + [ts[0]];
        CountAppend([], ts[0], w);
      }
    }
  }

  /** Python's `<` on strings: lexicographic order of code points, a proper prefix first. */
  predicate StrLess(a: string, b: string) {
    if a == [] then b != []
    else if b == [] then false
    else if a[0] != b[0] then a[0] < b[0]
    else StrLess(a[1..], b[1..])
  }

  lemma {:induction false} StrLessIrreflexive(a: string)
    ensures !StrLess(a, a)
  {
    if a != [] {
      StrLessIrreflexive(a[1..]);
    }
  }

  lemma {:induction false} StrLessAsymmetric(a: string, b: string)
    requires StrLess(a, b)
    ensures !StrLess(b, a)
  {
    if a != [] && b != [] && a[0] == b[0] {
      StrLessAsymmetric(a[1..], b[1..]);
    }
  }

  lemma {:induction false} StrLessTransitive(a: string, b: string, c: string)
    requires StrLess(a, b) && StrLess(b, c)
    ensures StrLess(a, c)
  {
    if a != [] && a[0] == b[0] && b[0] == c[0] {
      StrLessTransitive(a[1..], b[1..], c[1..]);
    }
  }

  lemma {:induction false} StrLessTotal(a: string, b: string)
    requires a != b
    ensures StrLess(a, b) || StrLess(b, a)
  {
    if a != [] && b != [] && a[0] == b[0] {
      assert a == [a[0]] + a[1..] && b == [b[0]] + b[1..];
      StrLessTotal(a[1..], b[1..]);
    }
  }

  predicate StrictlySorted(v: seq<string>) {
    forall i, j :: 0 <= i < j < |v| ==> StrLess(v[i], v[j])
  }

  /** Inserting into a strictly sorted list without duplicates. */
  function Insert(v: seq<string>, w: string): (r: seq<string>)
    requires StrictlySorted(v)
    ensures StrictlySorted(r)
    ensures forall x :: x in r <==> x in v || x == w
  {
    if v == [] then [w]
    else if w == v[0] then v
    else if StrLess(w, v[0]) then
      assert forall j :: 0 < j < |v| ==> StrLess(w, v[j]) by {
        forall j | 0 < j < |v| ensures StrLess(w, v[j]) {
          StrLessTransitive(w, v[0], v[j]);
        }
      }
      [w] + v
    else
      StrLessTotal(w, v[0]);
      var rest := Insert(v[1..], w);
      assert forall x :: x in rest ==> StrLess(v[0], x);
      [v[0]] + rest
  }

  /** `sorted(set(ws))`. */
  function SortedSet(ws: seq<string>): (r: seq<string>)
    ensures StrictlySorted(r)
    ensures forall x :: x in r <==> x in ws
  {
    if ws == [] then [] else Insert(SortedSet(ws[..|ws| - 1]), ws[|ws| - 1])
  }

  /** A strictly sorted list has no duplicates. */
  lemma SortedDistinct(v: seq<string>)
    requires StrictlySorted(v)
    ensures Distinct(v)
  {
    forall i, j | 0 <= i < j < |v| ensures v[i] != v[j] {
      if v[i] == v[j] {
        StrLessIrreflexive(v[i]);
      }
    }
  }

  /** `sorted(set(...))` is the only strictly sorted listing of its elements. */
  lemma {:induction false} SortedListingUnique(a: seq<string>, b: seq<string>)
    requires StrictlySorted(a) && StrictlySorted(b)
    requires forall x :: x in a <==> x in b
    ensures a == b
    decreases |a|
  {
    if a != [] {
      assert a[0] in b;
      assert b != [];
      assert b[0] in b;
      if a[0] != b[0] {
        var i :| 0 <= i < |a| && a[i] == b[0];
        var j :| 0 <= j < |b| && b[j] == a[0];
        StrLessAsymmetric(a[0], b[0]);
      }
      forall x ensures x in a[1..] <==> x in b[1..] {
        if x in a[1..] {
          var i :| 1 <= i < |a| && a[i] == x;
          StrLessIrreflexive(x);
          assert x in a;
          var j :| 0 <= j < |b| && b[j] == x;
          assert j != 0;
          assert b[1..][j - 1] == x;
        }
        if x in b[1..] {
          var j :| 1 <= j < |b| && b[j] == x;
          StrLessIrreflexive(x);
          assert x in b;
          var i :| 0 <= i < |a| && a[i] == x;
          assert i != 0;
          assert a[1..][i - 1] == x;
        }
      }
      SortedListingUnique(a[1..], b[1..]);
      assert a == [a[0]] + a[1..] && b == [b[0]] + b[1..];
    }
  }

  function Flatten(docs: seq<seq<string>>): (r: seq<string>)
    ensures forall w :: w in r <==> exists i :: 0 <= i < |docs| && w in docs[i]
  {
    if docs == [] then []
    else
      var r := Flatten(docs[..|docs| - 1]) + docs[|docs| - 1];
      assert forall w, i :: 0 <= i < |docs| - 1 && w in docs[i] ==> w in docs[..|docs| - 1][i];
      r
  }

  /** VOCABULARIO: the words of the preprocessed documents and of the query, sorted, each once. */
  function Vocabulary(docs: seq<seq<string>>, query: seq<string>): (v: seq<string>)
    ensures StrictlySorted(v)
    ensures forall w :: w in v <==> (exists i :: 0 <= i < |docs| && w in docs[i]) || w in query
  {
    SortedSet(Flatten(docs) + query)
  }

  /** `{word: i for i, word in enumerate(v)}`: a later duplicate would overwrite an earlier one. */
  function IndexMap(v: seq<string>): (r: map<string, nat>)
    ensures forall w :: w in r <==> w in v
    ensures forall w :: w in r ==> r[w] < |v| && v[r[w]] == w
  {
    if v == [] then map[] else IndexMap(v[..|v| - 1])[v[|v| - 1] := |v| - 1]
  }

  /** vocab_map maps each word of a duplicate-free vocabulary to its position. */
  lemma IndexMapPosition(v: seq<string>, j: nat)
    requires Distinct(v) && j < |v|
    ensures v[j] in IndexMap(v) && IndexMap(v)[v[j]] == j
  {
    assert v[j] in v;
  }

  /** The term-frequency vector of `doc` over `vocab`. */
  function TermCounts(doc: seq<string>, vocab: seq<string>): (r: seq<real>)
    ensures |r| == |vocab|
    ensures forall j :: 0 <= j < |vocab| ==> r[j] == Count(doc, vocab[j]) as real
  {
    seq(|vocab|, j requires 0 <= j < |vocab| => Count(doc, vocab[j]) as real)
  }

  function Sum(v: seq<real>): real {
    if v == [] then 0.0 else Sum(v[..|v| - 1]) + v[|v| - 1]
  }

  lemma {:induction false} SumTermCounts(doc: seq<string>, vocab: seq<string>)
    ensures Sum(TermCounts(doc, vocab)) == SumCounts(doc, vocab) as real
  {
    if vocab != [] {
      var v' := vocab[..|vocab| - 1];
      SumTermCounts(doc, v');
      assert TermCounts(doc, vocab)[..|vocab| - 1] == TermCounts(doc, v');
    }
  }

  /** A document whose words are all in the vocabulary has a TF row summing to its length. */
  lemma TermCountsSum(doc: seq<string>, vocab: seq<string>)
    requires StrictlySorted(vocab)
    requires forall w :: w in doc ==> w in vocab
    ensures Sum(TermCounts(doc, vocab)) == |doc| as real
  {
    SortedDistinct(vocab);
    SumTermCounts(doc, vocab);
    SumCountsIsLength(doc, vocab);
  }

  /** What one more token does to the counts over a duplicate-free vocabulary: exactly the
      column `vocab_map[token]` goes up by one, and nothing moves for a word outside it. */
  lemma TokenStep(prefix: seq<string>, token: string, vocab: seq<string>)
    requires Distinct(vocab)
    ensures forall j :: 0 <= j < |vocab| ==>
      Count(prefix + [token], vocab[j]) == Count(prefix, vocab[j]) + (if vocab[j] == token then 1 else 0)
    ensures token in IndexMap(vocab) ==>
      forall j :: 0 <= j < |vocab| ==> (vocab[j] == token <==> j == IndexMap(vocab)[token])
    ensures token !in IndexMap(vocab) ==> forall j :: 0 <= j < |vocab| ==> vocab[j] != token
  {
    forall j | 0 <= j < |vocab| {
      CountAppend(prefix, token, vocab[j]);
    }
    if token in IndexMap(vocab) {
      forall j | 0 <= j < |vocab| && vocab[j] == token ensures j == IndexMap(vocab)[token] {
        IndexMapPosition(vocab, j);
      }
    }
  }

  /** The inner loop of `TF_docs`: row i counts the tokens of `doc`; no other row changes. */
  method CountRow(tf: array2<real>, i: nat, doc: seq<string>, vocab: seq<string>, index: map<string, nat>)
    requires Distinct(vocab) && index == IndexMap(vocab)
    requires i < tf.Length0 && tf.Length1 == |vocab|
    requires forall j :: 0 <= j < |vocab| ==> tf[i, j] == 0.0
    modifies tf
    ensures forall j :: 0 <= j < |vocab| ==> tf[i, j] == Count(doc, vocab[j]) as real
    ensures forall r, j :: 0 <= r < tf.Length0 && r != i && 0 <= j < |vocab| ==> tf[r, j] == old(tf[r, j])
  {
    hide Count, Distinct, IndexMap;
    var k := 0;
    while k < |doc|
      invariant k <= |doc|
      invariant forall j :: 0 <= j < |vocab| ==> tf[i, j] == Count(doc[..k], vocab[j]) as real
      invariant forall r, j :: 0 <= r < tf.Length0 && r != i && 0 <= j < |vocab| ==> tf[r, j] == old(tf[r, j])
    {
      var token := doc[k];
      assert doc[..k + 1] == doc[..k] + [token];
      TokenStep(doc[..k], token, vocab);
      if token in index {
        var col := index[token];
        tf[i, col] := tf[i, col] + 1.0;
      }
      k := k + 1;
    }
    assert doc[..k] == doc;
  }

  /** `TF_docs`: the zero matrix, then `+= 1` at (i, vocab_map[token]) for each token of document i
      found in vocab_map. */
  method DocumentTermCounts(docs: seq<seq<string>>, vocab: seq<string>) returns (tf: array2<real>)
    requires Distinct(vocab)
    ensures fresh(tf)
    ensures tf.Length0 == |docs| && tf.Length1 == |vocab|
    ensures forall i, j :: 0 <= i < |docs| && 0 <= j < |vocab| ==> tf[i, j] == TermCounts(docs[i], vocab)[j]
  {
    var index := IndexMap(vocab);
    tf := new real[|docs|, |vocab|]((_, _) => 0.0);
    var i := 0;
    while i < |docs|
      invariant i <= |docs|
      invariant forall r, j :: 0 <= r < i && 0 <= j < |vocab| ==> tf[r, j] == Count(docs[r], vocab[j]) as real
      invariant forall r, j :: i <= r < |docs| && 0 <= j < |vocab| ==> tf[r, j] == 0.0
    {
      CountRow(tf, i, docs[i], vocab, index);
      i := i + 1;
    }
  }

  /** `TF_query`: the same count for the query's tokens. */
  method QueryTermCounts(query: seq<string>, vocab: seq<string>) returns (tf: array<real>)
    requires Distinct(vocab)
    ensures fresh(tf)
    ensures tf[..] == TermCounts(query, vocab)
  {
    hide Count, Distinct, IndexMap;
    var index := IndexMap(vocab);
    tf := new real[|vocab|](_ => 0.0);
    var k := 0;
    while k < |query|
      invariant k <= |query| && tf.Length == |vocab|
      invariant forall j :: 0 <= j < |vocab| ==> tf[j] == Count(query[..k], vocab[j]) as real
    {
      var token := query[k];
      assert query[..k + 1] == query[..k] + [token];
      TokenStep(query[..k], token, vocab);
      if token in index {
        var col := index[token];
        tf[col] := tf[col] + 1.0;
      }
      k := k + 1;
    }
    assert query[..k] == query;
  }

  /** `df[j]`: the number of documents whose TF entry for word `w` is positive. */
  function DocumentFrequency(docs: seq<seq<string>>, w: string): (n: nat)
    ensures n <= |docs|
    ensures n == 0 <==> forall i :: 0 <= i < |docs| ==> w !in docs[i]
    ensures n == |docs| <==> forall i :: 0 <= i < |docs| ==> w in docs[i]
  {
    if docs == [] then 0
    else
      var n := DocumentFrequency(docs[..|docs| - 1], w) + (if Count(docs[|docs| - 1], w) > 0 then 1 else 0);
      assert forall i :: 0 <= i < |docs| - 1 ==> docs[..|docs| - 1][i] == docs[i];
      n
  }

  function Dot(a: seq<real>, b: seq<real>): real
    requires |a| == |b|
  {
    if a == [] then 0.0 else Dot(a[..|a| - 1], b[..|b| - 1]) + Mul(a[|a| - 1], b[|b| - 1])
  }

  predicate IsZero(a: seq<real>) {
    forall i :: 0 <= i < |a| ==> a[i] == 0.0
  }

  /** Sum of the squares of the components: the squared Euclidean norm. */
  function SqNorm(a: seq<real>): real {
    if a == [] then 0.0 else SqNorm(a[..|a| - 1]) + Mul(a[|a| - 1], a[|a| - 1])
  }

  /** The squared norm is zero on the zero vector and positive on any other. */
  lemma {:induction false} SqNormSign(a: seq<real>)
    ensures SqNorm(a) >= 0.0
    ensures IsZero(a) ==> SqNorm(a) == 0.0
    ensures !IsZero(a) ==> SqNorm(a) > 0.0
  {
    if a != [] {
      var a' := a[..|a| - 1];
      SqNormSign(a');
      var x := a[|a| - 1];
      SquareSign(x);
      if IsZero(a) {
        assert IsZero(a');
      }
      if !IsZero(a) && IsZero(a') {
        var i :| 0 <= i < |a| && a[i] != 0.0;
        if i < |a| - 1 {
          assert a'[i] == a[i];
        }
      }
    }
  }

  lemma {:induction false} DotSelf(a: seq<real>)
    ensures Dot(a, a) == SqNorm(a)
  {
    if a != [] {
      DotSelf(a[..|a| - 1]);
    }
  }

  /** A Euclidean norm: the non-negative square root of the squared norm. */
  predicate IsNorm(a: seq<real>, n: real) {
    n >= 0.0 && Mul(n, n) == SqNorm(a)
  }

  /** A norm is zero exactly on the zero vector. */
  lemma NormZero(a: seq<real>, n: real)
    requires IsNorm(a, n)
    ensures n == 0.0 <==> IsZero(a)
  {
    SqNormSign(a);
    SquareSign(n);
  }

  /** `similitud_coseno(a, b)` given the two norms: 0.0 if either norm is zero, otherwise the dot
      product over their product. */
  function Cosine(a: seq<real>, b: seq<real>, normA: real, normB: real): (r: real)
    requires |a| == |b| && IsNorm(a, normA) && IsNorm(b, normB)
    ensures IsZero(a) || IsZero(b) ==> r == 0.0
  {
    NormZero(a, normA);
    NormZero(b, normB);
    if normA == 0.0 || normB == 0.0 then 0.0 else Dot(a, b) / (normA * normB)
  }

  /** The guard fires only on a zero vector, and a non-zero vector is fully similar to itself. */
  lemma CosineSelf(a: seq<real>, n: real)
    requires IsNorm(a, n) && !IsZero(a)
    ensures Cosine(a, a, n, n) == 1.0
  {
    NormZero(a, n);
    DotSelf(a);
    SqNormSign(a);
    var d := Mul(n, n);
    assert d > 0.0 && Dot(a, a) == d && n * n == d;
    assert d / d == 1.0;
  }

  /** `sorted(relevancias.items(), key=lambda item: item[1], reverse=True)`: Python's sort is
      stable also in reverse, so an item goes after every item of equal or higher score. */
  function InsertByScore(ranked: seq<(string, real)>, x: (string, real)): (r: seq<(string, real)>)
    ensures multiset(r) == multiset(ranked) + multiset{x}
  {
    if ranked == [] then [x]
    else if ranked[0].1 >= x.1 then
      assert ranked == [ranked[0]] + ranked[1..];
      [ranked[0]] + InsertByScore(ranked[1..], x)
    else [x] + ranked
  }

  function Rank(items: seq<(string, real)>): (r: seq<(string, real)>)
    ensures multiset(r) == multiset(items)
  {
    if items == [] then []
    else
      assert items == items[..|items| - 1] + [items[|items| - 1]];
      InsertByScore(Rank(items[..|items| - 1]), items[|items| - 1])
  }

  predicate NonIncreasing(r: seq<(string, real)>) {
    forall i, j :: 0 <= i < j < |r| ==> r[i].1 >= r[j].1
  }

  /** Inserting below a bound keeps every score below it. */
  lemma {:induction false} InsertByScoreBounded(ranked: seq<(string, real)>, x: (string, real), bound: real)
    requires x.1 <= bound && forall k :: 0 <= k < |ranked| ==> ranked[k].1 <= bound
    ensures forall k :: 0 <= k < |InsertByScore(ranked, x)| ==> InsertByScore(ranked, x)[k].1 <= bound
  {
    if ranked != [] && ranked[0].1 >= x.1 {
      InsertByScoreBounded(ranked[1..], x, bound);
    }
  }

  lemma {:induction false} InsertByScoreSorted(ranked: seq<(string, real)>, x: (string, real))
    requires NonIncreasing(ranked)
    ensures NonIncreasing(InsertByScore(ranked, x))
  {
    if ranked != [] && ranked[0].1 >= x.1 {
      InsertByScoreSorted(ranked[1..], x);
      InsertByScoreBounded(ranked[1..], x, ranked[0].1);
      var rest := InsertByScore(ranked[1..], x);
      var r := [ranked[0]] + rest;
      assert forall j :: 1 <= j < |r| ==> r[j] == rest[j - 1];
    }
  }

  /** The ranking is a permutation of the scores in non-increasing order. */
  lemma {:induction false} RankSorted(items: seq<(string, real)>)
    ensures NonIncreasing(Rank(items))
  {
    if items != [] {
      RankSorted(items[..|items| - 1]);
      InsertByScoreSorted(Rank(items[..|items| - 1]), items[|items| - 1]);
    }
  }

  /** The items with a given score, in order. */
  function WithScore(r: seq<(string, real)>, s: real): seq<(string, real)> {
    if r == [] then [] else (if r[0].1 == s then [r[0]] else []) + WithScore(r[1..], s)
  }

  lemma WithScoreEmpty(s: real)
    ensures WithScore([], s) == []
  {
  }

  lemma {:induction false} WithScoreAppend(a: seq<(string, real)>, b: seq<(string, real)>, s: real)
    ensures WithScore(a + b, s) == WithScore(a, s) + WithScore(b, s)
  {
    if a != [] {
      assert (a + b)[1..] == a[1..] + b;
      WithScoreAppend(a[1..], b, s);
    } else {
      assert a + b == b;
    }
  }

  lemma {:induction false} InsertByScoreStable(ranked: seq<(string, real)>, x: (string, real), s: real)
    requires NonIncreasing(ranked)
    ensures WithScore(InsertByScore(ranked, x), s) == WithScore(ranked, s) + WithScore([x], s)
  {
    if ranked == [] {
    } else if ranked[0].1 >= x.1 {
      var tail := ranked[1..];
      assert NonIncreasing(tail);
      InsertByScoreStable(tail, x, s);
      var r := [ranked[0]] + InsertByScore(tail, x);
      assert InsertByScore(ranked, x) == r;
      assert r[1..] == InsertByScore(tail, x);
      assert WithScore(r, s) == (if ranked[0].1 == s then [ranked[0]] else []) + WithScore(r[1..], s);
    } else {
      assert InsertByScore(ranked, x) == [x] + ranked;
      InsertAtFrontStable(ranked, x, s);
    }
  }

  /** An item placed before every lower score keeps the order of each score's items. */
  lemma InsertAtFrontStable(ranked: seq<(string, real)>, x: (string, real), s: real)
    requires NonIncreasing(ranked) && ranked != [] && ranked[0].1 < x.1
    ensures WithScore([x] + ranked, s) == WithScore(ranked, s) + WithScore([x], s)
  {
    WithScoreAppend([x], ranked, s);
    if x.1 == s {
      NoneWithScore(ranked, s);
    } else {
      assert WithScore([x], s) == [];
    }
  }

  lemma {:induction false} NoneWithScore(r: seq<(string, real)>, s: real)
    requires forall k :: 0 <= k < |r| ==> r[k].1 < s
    ensures WithScore(r, s) == []
  {
    if r != [] {
      NoneWithScore(r[1..], s);
    }
  }

  /** Ties keep their input order: the items of any one score appear in the ranking in the order
      they had in `relevancias`. */
  lemma {:induction false} RankStable(items: seq<(string, real)>, s: real)
    ensures WithScore(Rank(items), s) == WithScore(items, s)
  {
    hide InsertByScore, WithScore, NonIncreasing;
    if items != [] {
      var init := items[..|items| - 1];
      var x := items[|items| - 1];
      RankStable(init, s);
      RankSorted(init);
      InsertByScoreStable(Rank(init), x, s);
      assert items == init + [x];
      WithScoreAppend(init, [x], s);
    } else {
      WithScoreEmpty(s);
    }
  }
}
