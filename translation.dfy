/** Phrase-based statistical translation (006_Traduccion_Estadistica.py): phrase pairs of one and
    two tokens are counted over a parallel corpus, each source phrase keeps its most probable
    target phrase, and the sentence FRASE_FUENTE is looked up in that table. */
module Translation {
  import opened Text
  import opened Counting
  import opened Wrappers

  /** A (source phrase, target phrase) pair. */
  type Pair = (string, string)

  /** CORPUS_PARALELO. */
  const ParallelCorpus: seq<Pair> := [
    ("el perro come", "the dog eats"),
    ("el gato duerme", "the cat sleeps"),
    ("el perro duerme", "the dog sleeps"),
    ("el gato come", "the cat eats")
  ]

  /** FRASE_FUENTE. */
  const SourceSentence: string := "el perro duerme"

  /** A Python dict of counts: its keys in insertion order, and the count under each key. */
  datatype Counter<T> = Counter(keys: seq<T>, counts: map<T, nat>)

  /** `d[x] = d.get(x, 0) + 1`: a new key goes to the end, an existing key keeps its place. */
  function Increment<T>(d: Counter<T>, x: T): Counter<T> {
    if x in d.counts then Counter(d.keys, d.counts[x := d.counts[x] + 1])
    else Counter(d.keys + [x], d.counts[x := 1])
  }

  /** The counter after incrementing once for each element of `xs`, left to right. */
  function Tally<T>(xs: seq<T>): Counter<T> {
    if xs == [] then Counter([], map[]) else Increment(Tally(xs[..|xs| - 1]), xs[|xs| - 1])
  }

  /** The counter lists each element of `xs` once, in order of first occurrence, with its number of
      occurrences. */
  lemma {:induction false} TallyCounts<T>(xs: seq<T>)
    ensures Distinct(Tally(xs).keys)
    ensures forall x :: x in Tally(xs).keys <==> x in xs
    ensures forall x :: x in Tally(xs).counts <==> x in xs
    ensures forall x :: x in Tally(xs).keys ==> x in Tally(xs).counts
    ensures forall x :: x in Tally(xs).counts ==> Tally(xs).counts[x] == Count(xs, x)
  {
    if xs != [] {
      var init := xs[..|xs| - 1];
      var x := xs[|xs| - 1];
      TallyCounts(init);
      assert xs == init + [x];
      forall y | y in Tally(xs).counts ensures Tally(xs).counts[y] == Count(xs, y) {
        CountAppend(init, x, y);
      }
    }
  }

  /** The pairs `(a, b[j])` for every `j`, in order. */
  function Row(a: string, bs: seq<string>): (r: seq<Pair>)
    ensures |r| == |bs|
    ensures forall j :: 0 <= j < |bs| ==> r[j] == (a, bs[j])
  {
    seq(|bs|, j requires 0 <= j < |bs| => (a, bs[j]))
  }

  /** The pairs `(as_[i], bs[j])`, `i` in the outer loop and `j` in the inner one. */
  function Grid(as_: seq<string>, bs: seq<string>): seq<Pair> {
    if as_ == [] then [] else Grid(as_[..|as_| - 1], bs) + Row(as_[|as_| - 1], bs)
  }

  lemma {:induction false} GridLength(as_: seq<string>, bs: seq<string>)
    ensures |Grid(as_, bs)| == |as_| * |bs|
  {
    if as_ != [] {
      var n := |as_| - 1;
      GridLength(as_[..n], bs);
      assert |Grid(as_, bs)| == n * |bs| + |bs|;
      assert n * |bs| + |bs| == (n + 1) * |bs|;
    }
  }

  /** The two-token phrases `" ".join(ts[i:i+2])` for `i in range(len(ts) - 1)`. */
  function TwoTokenPhrases(ts: seq<string>): (r: seq<string>)
    ensures |r| == if ts == [] then 0 else |ts| - 1
  {
    if |ts| < 2 then [] else seq(|ts| - 1, i requires 0 <= i < |ts| - 1 => Join(" ", ts[i..i + 2]))
  }

  /** The pairs one sentence pair contributes: all one-token pairs, then all two-token pairs. */
  function SentencePairs(es: seq<string>, en: seq<string>): seq<Pair> {
    Grid(es, en) + Grid(TwoTokenPhrases(es), TwoTokenPhrases(en))
  }

  /** Sentences of m and n tokens give m·n one-token pairs and (m-1)(n-1) two-token pairs. */
  lemma SentencePairsCount(es: seq<string>, en: seq<string>)
    requires es != [] && en != []
    ensures |Grid(es, en)| == |es| * |en|
    ensures |Grid(TwoTokenPhrases(es), TwoTokenPhrases(en))| == (|es| - 1) * (|en| - 1)
  {
    GridLength(es, en);
    GridLength(TwoTokenPhrases(es), TwoTokenPhrases(en));
  }

  /** Every pair the extraction loops produce over the corpus, in order. */
  function PairStream(corpus: seq<Pair>): seq<Pair> {
    if corpus == [] then []
    else
      var c := corpus[|corpus| - 1];
      PairStream(corpus[..|corpus| - 1]) + SentencePairs(Split(c.0), Split(c.1))
  }

  lemma TallyEmpty<T>()
    ensures Tally<T>([]) == Counter([], map[])
  {
  }

  lemma TallyLast<T>(xs: seq<T>)
    requires xs != []
    ensures Tally(xs) == Increment(Tally(xs[..|xs| - 1]), xs[|xs| - 1])
  {
  }

  lemma TallyStep<T>(xs: seq<T>, x: T)
    ensures Tally(xs + [x]) == Increment(Tally(xs), x)
  {
    assert (xs + [x])[..|xs|] == xs;
  }

  lemma RowStep(a: string, bs: seq<string>, j: nat)
    requires j < |bs|
    ensures Row(a, bs[..j + 1]) == Row(a, bs[..j]) + [(a, bs[j])]
  {
  }

  lemma GridStep(as_: seq<string>, bs: seq<string>, i: nat)
    requires i < |as_|
    ensures Grid(as_[..i + 1], bs) == Grid(as_[..i], bs) + Row(as_[i], bs)
  {
    assert as_[..i + 1][..i] == as_[..i];
  }

  /** One pair of nested loops of the extraction: `d[(as_[i], bs[j])] += 1` for every `i`, then `j`. */
  method CountGrid(pairs: Counter<Pair>, ghost done: seq<Pair>, as_: seq<string>, bs: seq<string>)
    returns (pairs': Counter<Pair>)
    requires pairs == Tally(done)
    ensures pairs' == Tally(done + Grid(as_, bs))
  {
    hide Tally, Increment, Row;
    pairs' := pairs;
    assert as_[..0] == [] && done + Grid([], bs) == done;
    var i := 0;
    while i < |as_|
      invariant i <= |as_|
      invariant pairs' == Tally(done + Grid(as_[..i], bs))
    {
      pairs' := CountRow(pairs', done + Grid(as_[..i], bs), as_[i], bs);
      GridStep(as_, bs, i);
      assert done + Grid(as_[..i + 1], bs) == done + Grid(as_[..i], bs) + Row(as_[i], bs);
      i := i + 1;
    }
    assert as_[..i] == as_;
  }

  /** The inner loop: `d[(a, bs[j])] += 1` for every `j`. */
  method CountRow(pairs: Counter<Pair>, ghost done: seq<Pair>, a: string, bs: seq<string>)
    returns (pairs': Counter<Pair>)
    requires pairs == Tally(done)
    ensures pairs' == Tally(done + Row(a, bs))
  {
    hide Tally, Increment, Row;
    pairs' := pairs;
    ghost var seen := done;
    assert bs[..0] == [] && Row(a, []) == [];
    var j := 0;
    while j < |bs|
      invariant j <= |bs|
      invariant seen == done + Row(a, bs[..j])
      invariant pairs' == Tally(seen)
    {
      var pair := (a, bs[j]);
      TallyStep(seen, pair);
      pairs' := Increment(pairs', pair);
      RowStep(a, bs, j);
      seen := seen + [pair];
      j := j + 1;
    }
    assert bs[..j] == bs;
  }

  /** The extraction loops: `conteo_pares` after counting, for every sentence pair, its one-token
      pairs and then its two-token pairs. */
  method CountPhrasePairs(corpus: seq<Pair>) returns (pairs: Counter<Pair>)
    ensures pairs == Tally(PairStream(corpus))
  {
    pairs := Counter([], map[]);
    var k := 0;
    while k < |corpus|
      invariant k <= |corpus|
      invariant pairs == Tally(PairStream(corpus[..k]))
    {
      var es := Split(corpus[k].0);
      var en := Split(corpus[k].1);
      ghost var before := PairStream(corpus[..k]);
      ghost var ones := before + Grid(es, en);
      pairs := CountGrid(pairs, before, es, en);
      pairs := CountGrid(pairs, ones, TwoTokenPhrases(es), TwoTokenPhrases(en));
      StreamStep(corpus, k);
      k := k + 1;
    }
    assert corpus[..k] == corpus;
  }

  lemma StreamStep(corpus: seq<Pair>, k: nat)
    requires k < |corpus|
    ensures PairStream(corpus[..k + 1])
         == PairStream(corpus[..k]) + Grid(Split(corpus[k].0), Split(corpus[k].1))
            + Grid(TwoTokenPhrases(Split(corpus[k].0)), TwoTokenPhrases(Split(corpus[k].1)))
  {
    assert corpus[..k + 1][..k] == corpus[..k];
  }

  /** Sum of the counts of the listed pairs whose source phrase is `f`. */
  function SourceTotal(keys: seq<Pair>, counts: map<Pair, nat>, f: string): nat
    requires forall p :: p in keys ==> p in counts
  {
    if keys == [] then 0
    else
      var p := keys[|keys| - 1];
      SourceTotal(keys[..|keys| - 1], counts, f) + (if p.0 == f then counts[p] else 0)
  }

  /** `conteo_fuente`: for each pair of `conteo_pares`, in order, its count is added under its
      source phrase. */
  method CountSources(pairs: Counter<Pair>) returns (source: map<string, nat>)
    requires forall p :: p in pairs.keys ==> p in pairs.counts
    ensures forall f :: f in source <==> exists p :: p in pairs.keys && p.0 == f
    ensures forall f :: f in source ==> source[f] == SourceTotal(pairs.keys, pairs.counts, f)
  {
    source := map[];
    var i := 0;
    while i < |pairs.keys|
      invariant i <= |pairs.keys|
      invariant forall f :: f in source <==> exists p :: p in pairs.keys[..i] && p.0 == f
      invariant forall f :: f in source ==> source[f] == SourceTotal(pairs.keys[..i], pairs.counts, f)
    {
      var p := pairs.keys[i];
      var count := pairs.counts[p];
      assert pairs.keys[..i + 1] == pairs.keys[..i] + [p];
      assert pairs.keys[..i + 1][..i] == pairs.keys[..i];
      forall f | f !in source ensures SourceTotal(pairs.keys[..i], pairs.counts, f) == 0 {
        NoSourceTotal(pairs.keys[..i], pairs.counts, f);
      }
      source := source[p.0 := (if p.0 in source then source[p.0] else 0) + count];
      i := i + 1;
    }
    assert pairs.keys[..i] == pairs.keys;
  }

  lemma {:induction false} NoSourceTotal(keys: seq<Pair>, counts: map<Pair, nat>, f: string)
    requires forall p :: p in keys ==> p in counts
    requires forall p :: p in keys ==> p.0 != f
    ensures SourceTotal(keys, counts, f) == 0
  {
    if keys != [] {
      NoSourceTotal(keys[..|keys| - 1], counts, f);
    }
  }

  /** Number of pairs of `s` whose source phrase is `f`. */
  function SourceOccurrences(s: seq<Pair>, f: string): nat {
    if s == [] then 0 else SourceOccurrences(s[..|s| - 1], f) + (if s[|s| - 1].0 == f then 1 else 0)
  }

  lemma {:induction false} SourceTotalBump(keys: seq<Pair>, counts: map<Pair, nat>, x: Pair, f: string)
    requires forall p :: p in keys ==> p in counts
    requires Distinct(keys) && x in keys
    ensures SourceTotal(keys, counts[x := counts[x] + 1], f)
         == SourceTotal(keys, counts, f) + (if x.0 == f then 1 else 0)
  {
    var init := keys[..|keys| - 1];
    var last := keys[|keys| - 1];
    if last == x {
      assert x !in init;
      SourceTotalFrame(init, counts, counts[x := counts[x] + 1], f);
    } else {
      assert x in init;
      SourceTotalBump(init, counts, x, f);
    }
  }

  lemma {:induction false} SourceTotalFrame(keys: seq<Pair>, c1: map<Pair, nat>, c2: map<Pair, nat>, f: string)
    requires forall p :: p in keys ==> p in c1 && p in c2 && c1[p] == c2[p]
    ensures SourceTotal(keys, c1, f) == SourceTotal(keys, c2, f)
  {
    if keys != [] {
      SourceTotalFrame(keys[..|keys| - 1], c1, c2, f);
    }
  }

  /** The keys of a tally are distinct and are exactly the counted elements. */
  lemma TallyKeys<T>(xs: seq<T>)
    ensures Distinct(Tally(xs).keys)
    ensures forall x :: x in Tally(xs).keys <==> x in Tally(xs).counts
  {
    TallyCounts(xs);
  }

  /** `conteo_fuente[f]` is the number of extracted pairs whose source phrase is `f`. */
  lemma {:induction false} SourceTotalIsOccurrences(s: seq<Pair>, f: string)
    ensures forall p :: p in Tally(s).keys ==> p in Tally(s).counts
    ensures SourceTotal(Tally(s).keys, Tally(s).counts, f) == SourceOccurrences(s, f)
  {
    hide Distinct, Tally, SourceTotal;
    TallyKeys(s);
    if s == [] {
      TallyEmpty<Pair>();
      SourceTotalEmpty(Tally(s).counts, f);
    } else {
      var init := s[..|s| - 1];
      var x := s[|s| - 1];
      SourceTotalIsOccurrences(init, f);
      TallyKeys(init);
      TallyLast(s);
      var t := Tally(init);
      if x in t.counts {
        SourceTotalBump(t.keys, t.counts, x, f);
      } else {
        SourceTotalAppend(t.keys, t.counts, x, f);
      }
    }
  }

  lemma SourceTotalEmpty(counts: map<Pair, nat>, f: string)
    ensures SourceTotal([], counts, f) == 0
  {
  }

  /** A new key with count 1 adds one to its source phrase's total. */
  lemma SourceTotalAppend(keys: seq<Pair>, counts: map<Pair, nat>, x: Pair, f: string)
    requires forall p :: p in keys ==> p in counts
    requires x !in counts
    ensures SourceTotal(keys + [x], counts[x := 1], f) == SourceTotal(keys, counts, f) + (if x.0 == f then 1 else 0)
  {
    SourceTotalFrame(keys, counts, counts[x := 1], f);
    assert (keys + [x])[..|keys|] == keys;
  }

  /** A listed pair's count is part of its source phrase's total. */
  lemma {:induction false} PairWithinSource(keys: seq<Pair>, counts: map<Pair, nat>, k: Pair)
    requires forall p :: p in keys ==> p in counts
    requires k in keys
    ensures counts[k] <= SourceTotal(keys, counts, k.0)
  {
    if keys[|keys| - 1] != k {
      PairWithinSource(keys[..|keys| - 1], counts, k);
    }
  }

  /** P(target | source) of a pair: its count over its source phrase's count. */
  function Prob(counts: map<Pair, nat>, source: map<string, nat>, k: Pair): real
    requires k in counts && k.0 in source && source[k.0] > 0
  {
    counts[k] as real / source[k.0] as real
  }

  /** Well-formed inputs of the table loop: listed pairs have counts and positive source totals. */
  predicate TableInputs(keys: seq<Pair>, counts: map<Pair, nat>, source: map<string, nat>) {
    forall p :: p in keys ==> p in counts && p.0 in source && source[p.0] > 0
  }

  /** `tabla_frases` after the loop over the listed pairs: a pair replaces the stored entry of its
      source phrase only with a strictly higher probability. */
  function Table(keys: seq<Pair>, counts: map<Pair, nat>, source: map<string, nat>): map<string, (string, real)>
    requires TableInputs(keys, counts, source)
  {
    if keys == [] then map[]
    else
      var t := Table(keys[..|keys| - 1], counts, source);
      var k := keys[|keys| - 1];
      var p := Prob(counts, source, k);
      if k.0 !in t || p > t[k.0].1 then t[k.0 := (k.1, p)] else t
  }

  /** The table loop over `conteo_pares.items()`. */
  method BuildTable(pairs: Counter<Pair>, source: map<string, nat>) returns (table: map<string, (string, real)>)
    requires TableInputs(pairs.keys, pairs.counts, source)
    ensures table == Table(pairs.keys, pairs.counts, source)
  {
    table := map[];
    var i := 0;
    while i < |pairs.keys|
      invariant i <= |pairs.keys|
      invariant table == Table(pairs.keys[..i], pairs.counts, source)
    {
      var k := pairs.keys[i];
      var countEs := source[k.0];
      var probability := pairs.counts[k] as real / countEs as real;
      assert pairs.keys[..i + 1][..i] == pairs.keys[..i];
      if k.0 !in table || probability > table[k.0].1 {
        table := table[k.0 := (k.1, probability)];
      }
      i := i + 1;
    }
    assert pairs.keys[..i] == pairs.keys;
  }

  /** Every source phrase of the listed pairs gets exactly one entry, and no other phrase does. */
  lemma {:induction false} TableKeys(keys: seq<Pair>, counts: map<Pair, nat>, source: map<string, nat>, f: string)
    requires TableInputs(keys, counts, source)
    ensures f in Table(keys, counts, source) <==> exists k :: k in keys && k.0 == f
  {
    if keys != [] {
      var init := keys[..|keys| - 1];
      TableKeys(init, counts, source, f);
      if f !in Table(keys, counts, source) {
        forall k | k in keys ensures k.0 != f {
          if k in init {}
        }
      } else if f in Table(init, counts, source) {
        var k :| k in init && k.0 == f;
        assert k in keys;
      } else {
        assert keys[|keys| - 1] in keys;
      }
    }
  }

  /** `keys[m]` is the entry `(f, e)` with probability `p`, no pair of `f` is more probable and
      every pair of `f` listed before `m` is strictly less probable. */
  predicate FirstBest(keys: seq<Pair>, counts: map<Pair, nat>, source: map<string, nat>, f: string,
                      entry: (string, real), m: int)
    requires TableInputs(keys, counts, source)
  {
    && 0 <= m < |keys| && keys[m] == (f, entry.0)
    && Prob(counts, source, keys[m]) == entry.1
    && (forall i :: 0 <= i < m && keys[i].0 == f ==> Prob(counts, source, keys[i]) < entry.1)
    && (forall i :: 0 <= i < |keys| && keys[i].0 == f ==> Prob(counts, source, keys[i]) <= entry.1)
  }

  /** The stored entry of a source phrase is one of its pairs with that pair's probability, no pair
      of that phrase is more probable, and among equally probable pairs the earliest one listed is
      kept (the strict comparison of the loop). */
  lemma {:induction false} TableBest(keys: seq<Pair>, counts: map<Pair, nat>, source: map<string, nat>, f: string)
    requires TableInputs(keys, counts, source)
    requires f in Table(keys, counts, source)
    ensures exists m :: FirstBest(keys, counts, source, f, Table(keys, counts, source)[f], m)
  {
    var init := keys[..|keys| - 1];
    var k := keys[|keys| - 1];
    assert keys == init + [k];
    var t := Table(init, counts, source);
    if k.0 == f && (f !in t || Prob(counts, source, k) > t[f].1) {
      if f in t {
        TableBest(init, counts, source, f);
        var m' :| FirstBest(init, counts, source, f, t[f], m');
        BestReplaced(init, k, counts, source, f, t[f], m');
      } else {
        TableKeys(init, counts, source, f);
        FirstOfPhrase(init, k, counts, source, f);
      }
    } else {
      TableBest(init, counts, source, f);
      var m :| FirstBest(init, counts, source, f, t[f], m);
      BestKept(init, k, counts, source, f, t[f], m);
    }
  }

  /** A later pair of strictly higher probability becomes the best of its phrase. */
  lemma BestReplaced(init: seq<Pair>, k: Pair, counts: map<Pair, nat>, source: map<string, nat>, f: string,
                     entry: (string, real), m: int)
    requires TableInputs(init + [k], counts, source)
    requires FirstBest(init, counts, source, f, entry, m)
    requires k.0 == f && Prob(counts, source, k) > entry.1
    ensures FirstBest(init + [k], counts, source, f, (k.1, Prob(counts, source, k)), |init|)
  {
    var keys := init + [k];
    forall i | 0 <= i < |init| && keys[i].0 == f ensures Prob(counts, source, keys[i]) < Prob(counts, source, k) {
      assert keys[i] == init[i];
    }
  }

  /** The first pair listed for a phrase is its best so far. */
  lemma FirstOfPhrase(init: seq<Pair>, k: Pair, counts: map<Pair, nat>, source: map<string, nat>, f: string)
    requires TableInputs(init + [k], counts, source)
    requires k.0 == f && !(exists p :: p in init && p.0 == f)
    ensures FirstBest(init + [k], counts, source, f, (k.1, Prob(counts, source, k)), |init|)
  {
    var keys := init + [k];
    forall i | 0 <= i < |init| ensures keys[i].0 != f {
      assert keys[i] == init[i];
      assert init[i] in init;
    }
  }

  /** A later pair that is no more probable, or of another phrase, leaves the best as it was. */
  lemma BestKept(init: seq<Pair>, k: Pair, counts: map<Pair, nat>, source: map<string, nat>, f: string,
                 entry: (string, real), m: int)
    requires TableInputs(init + [k], counts, source)
    requires FirstBest(init, counts, source, f, entry, m)
    requires k.0 == f ==> Prob(counts, source, k) <= entry.1
    ensures FirstBest(init + [k], counts, source, f, entry, m)
  {
    var keys := init + [k];
    assert keys[m] == init[m];
    forall i | 0 <= i < |keys| && keys[i].0 == f ensures Prob(counts, source, keys[i]) <= entry.1 {
      if i < |init| { assert keys[i] == init[i]; }
    }
    forall i | 0 <= i < m && keys[i].0 == f ensures Prob(counts, source, keys[i]) < entry.1 {
      assert keys[i] == init[i];
    }
  }

  /** Built from the corpus' own counts, every stored probability lies in (0, 1]. */
  lemma {:induction false} TableProbability(s: seq<Pair>, k: Pair)
    requires k in Tally(s).keys
    ensures forall p :: p in Tally(s).keys ==> p in Tally(s).counts
    ensures 0 < Tally(s).counts[k] <= SourceTotal(Tally(s).keys, Tally(s).counts, k.0)
  {
    TallyCounts(s);
    PairWithinSource(Tally(s).keys, Tally(s).counts, k);
  }

  lemma RatioInUnitInterval(p: nat, q: nat)
    requires 0 < p <= q
    ensures 0.0 < p as real / q as real <= 1.0
  {
  }

  /** Number of spaces in a phrase. */
  function Spaces(s: string): nat {
    Count(s, ' ')
  }

  lemma SpacesOfWord(w: string)
    requires IsWord(w)
    ensures Spaces(w) == 0
  {
    assert IsSpace(' ');
    assert forall i :: 0 <= i < |w| ==> w[i] != ' ';
  }

  /** Source phrases have one token or two: no phrase of the table has more than one space. */
  lemma {:induction false} StreamSourcesShort(corpus: seq<Pair>, p: Pair)
    requires p in PairStream(corpus)
    ensures Spaces(p.0) <= 1
  {
    var c := corpus[|corpus| - 1];
    var es := Split(c.0);
    var en := Split(c.1);
    if p in PairStream(corpus[..|corpus| - 1]) {
      StreamSourcesShort(corpus[..|corpus| - 1], p);
    } else if p in Grid(es, en) {
      GridSources(es, en, p);
      SpacesOfWord(p.0);
    } else {
      assert p in Grid(TwoTokenPhrases(es), TwoTokenPhrases(en));
      GridSources(TwoTokenPhrases(es), TwoTokenPhrases(en), p);
      var i :| 0 <= i < |TwoTokenPhrases(es)| && TwoTokenPhrases(es)[i] == p.0;
      TwoTokenSpaces(es, i);
    }
  }

  lemma TwoTokenSpaces(ts: seq<string>, i: nat)
    requires AllWords(ts) && i < |TwoTokenPhrases(ts)|
    ensures Spaces(TwoTokenPhrases(ts)[i]) == 1
  {
    var ws := ts[i..i + 2];
    assert ws[1..] == [ts[i + 1]];
    assert Join(" ", ws[1..]) == ts[i + 1];
    assert TwoTokenPhrases(ts)[i] == ts[i] + (" " + ts[i + 1]);
    SpacesOfWord(ts[i]);
    SpacesOfWord(ts[i + 1]);
    assert Count(" ", ' ') == 1;
    CountConcat(" ", ts[i + 1], ' ');
    CountConcat(ts[i], " " + ts[i + 1], ' ');
  }

  lemma {:induction false} GridSources(as_: seq<string>, bs: seq<string>, p: Pair)
    requires p in Grid(as_, bs)
    ensures p.0 in as_
  {
    var init := as_[..|as_| - 1];
    if p in Grid(init, bs) {
      GridSources(init, bs, p);
    }
  }

  /** The translation attempt: the stored best translation of `phrase`, if any. */
  function Translate(table: map<string, (string, real)>, phrase: string): (r: Option<(string, real)>)
    ensures r.None? <==> phrase !in table
    ensures r.Some? ==> r.value == table[phrase]
  {
    if phrase in table then Some(table[phrase]) else None
  }

  /** FRASE_FUENTE has three tokens, so whatever the corpus the lookup takes the "not found" branch. */
  lemma SourceSentenceNotFound(corpus: seq<Pair>, source: map<string, nat>)
    requires TableInputs(Tally(PairStream(corpus)).keys, Tally(PairStream(corpus)).counts, source)
    ensures Translate(Table(Tally(PairStream(corpus)).keys, Tally(PairStream(corpus)).counts, source),
                      SourceSentence) == None
  {
    var s := PairStream(corpus);
    var t := Tally(s);
    TallyCounts(s);
    TableKeys(t.keys, t.counts, source, SourceSentence);
    SourceSentenceSpaces();
    if SourceSentence in Table(t.keys, t.counts, source) {
      var k :| k in t.keys && k.0 == SourceSentence;
      StreamSourcesShort(corpus, k);
    }
  }

  lemma SourceSentenceSpaces()
    ensures Spaces(SourceSentence) == 2
  {
    assert SourceSentence == "el" + " " + ("perro" + (" " + "duerme"));
    assert Count("el", ' ') == 0;
    assert Count(" ", ' ') == 1;
    assert Count("perro", ' ') == 0;
    assert Count("duerme", ' ') == 0;
    CountConcat(" ", "duerme", ' ');
    CountConcat("perro", " " + "duerme", ' ');
    CountConcat("el", " ", ' ');
    CountConcat("el" + " ", "perro" + (" " + "duerme"), ' ');
  }

  /** The whole script: count the pairs, total them per source phrase, keep the best translation
      of each source phrase and look up FRASE_FUENTE, which is never found. */
  method TranslateSentence(corpus: seq<Pair>) returns (table: map<string, (string, real)>, found: Option<(string, real)>)
    ensures forall f :: f in table <==> exists p :: p in PairStream(corpus) && p.0 == f
    ensures forall f :: f in table ==> 0.0 < table[f].1 <= 1.0 && (f, table[f].0) in PairStream(corpus)
    ensures found == None
  {
    var pairs := CountPhrasePairs(corpus);
    ghost var s := PairStream(corpus);
    TallyCounts(s);
    var source := CountSources(pairs);
    forall p | p in pairs.keys ensures p.0 in source && source[p.0] > 0 {
      TableProbability(s, p);
    }
    table := BuildTable(pairs, source);
    forall f | f in table ensures 0.0 < table[f].1 <= 1.0 && (f, table[f].0) in s {
      TableBest(pairs.keys, pairs.counts, source, f);
      var m :| FirstBest(pairs.keys, pairs.counts, source, f, table[f], m);
      TableProbability(s, pairs.keys[m]);
      RatioInUnitInterval(pairs.counts[pairs.keys[m]], source[f]);
    }
    forall f ensures f in table <==> exists p :: p in s && p.0 == f {
      TableKeys(pairs.keys, pairs.counts, source, f);
    }
    SourceSentenceNotFound(corpus, source);
    found := Translate(table, SourceSentence);
  }
}
