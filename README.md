# Probability and learning teaching scripts, modelled in Dafny

This project models the scripts under `02_Probabilidad` that compute something definite: text
counting and lookups, small learning rules, a texture generator, hidden-Markov-model dynamic
programming, and exact probability bookkeeping on fixed tables. Each script's functions, loops and
tables become Dafny definitions, and their properties are proved. Probabilities are exact `real`
numbers. A Python exception the code can raise (KeyError, IndexError, ValueError,
ZeroDivisionError, NameError) is a `Result` error.

The modules follow the scripts:

- `Wrappers`, `Reals`, `Text`, `Counting` and `Vectors` hold what several scripts share. These are
  `Result` and `Option`, real-arithmetic facts, Python's `str.lower`/`str.split`/`str.replace`,
  occurrence counters, and the numpy vector operations.
- Language: `EntityExtraction` (005_Extraccion_Info.py), `Corpus` (001_Corpus.py), `Retrieval`
  (004_Recuperacion_Datos.py), `Translation` (006_Traduccion_Estadistica.py), `Pcfg`
  (002_Gram_Prob_Indep_Contexto.py) and `Lpcfg` (003_Gram_Prob_Lexical.py).
- Learning: `NaiveBayes` (002_Naive_Bayes.py), `BetaLearning` (001_Apren_Bayesiano.py), `Hamming`,
  `Hebb`, `Neuron`, `Activation` and `PerceptronTraining` (05_Redes_Neuronales), and `Bandit`
  (001_Incertidumbre.py).
- `Texture` models the stripe loop of 004_Texturas.py.
- Bayesian networks: `Alarm` models the burglary network shared by 001_Red_Bayesiana.py,
  003_Manto_Markov.py and 004_Inter_Enumeracion.py. `Elimination` models 005_Elim_Variables.py.
- Time: `Hmm` holds the Viterbi decoder. The same decoder is written out in
  003_Fil_Suav_Pred_Exp.py (`suavizado_viterbi`), in both 005_Mod_Oculto_Markov.py scripts and in
  008_Reconocimiento_Habla.py, so it is modelled once over a `Model` value. `Filtering` models
  filtering, prediction and forward-backward smoothing (003_Fil_Suav_Pred_Exp.py,
  004_Delante_Atras.py). `HmmModels` holds the scripts' concrete models, and `Speech` the word
  decision of 008_Reconocimiento_Habla.py.

Loops that fill arrays or update dictionaries step by step are methods with loop invariants. Each
is proved against a recursive function of its inputs, and the properties are proved as lemmas about
that function. Examples are Viterbi's `delta`/`psi` tables and back-tracking, the forward and
backward passes, the counting loops, the perceptron's epochs and the bandit's in-place update.
Pure expressions are functions.

## Model

| member | source | states |
|---|---|---|
| Text.LowerChar | 02_Probabilidad/06_Razonamiento_Probabilistico_Lenguaje/005_Extraccion_Info.py:28 | a lowered character is not upper-case, other characters are kept, and whitespace stays whitespace |
| Text.Lower | 02_Probabilidad/06_Razonamiento_Probabilistico_Lenguaje/005_Extraccion_Info.py:28 | `str.lower` keeps the length and lowers every character in place |
| Text.Remove | 02_Probabilidad/06_Razonamiento_Probabilistico_Lenguaje/001_Corpus.py:18 | `str.replace(c, '')` keeps exactly the characters other than c, each as often as in the text, and never lengthens the text |
| Text.WordLength | 02_Probabilidad/06_Razonamiento_Probabilistico_Lenguaje/001_Corpus.py:21 | the first token of `str.split()` runs up to the first whitespace character |
| Text.Split | 02_Probabilidad/06_Razonamiento_Probabilistico_Lenguaje/001_Corpus.py:21 | every token of `str.split()` is non-empty and free of whitespace |
| Text.SplitJoin | 02_Probabilidad/06_Razonamiento_Probabilistico_Lenguaje/005_Extraccion_Info.py:43 | splitting a space-join of tokens gives the tokens back |
| Text.SplitKeepsNonSpace | 02_Probabilidad/06_Razonamiento_Probabilistico_Lenguaje/001_Corpus.py:21 | the tokens, concatenated, are exactly the non-whitespace characters of the text |
| Text.SplitTokensFromString | 02_Probabilidad/06_Razonamiento_Probabilistico_Lenguaje/001_Corpus.py:18-21 | a character removed before splitting occurs in no token |
| Text.SplitLower | 02_Probabilidad/06_Razonamiento_Probabilistico_Lenguaje/005_Extraccion_Info.py:28 | the tokens of a lower-cased text are lower-case |
| Text.SplitWordThen | 02_Probabilidad/06_Razonamiento_Probabilistico_Lenguaje/001_Corpus.py:21 | a leading token followed by whitespace is split off first |
| Text.SplitAtSpace | 02_Probabilidad/06_Razonamiento_Probabilistico_Lenguaje/004_Recuperacion_Datos.py:14 | splitting at a space splits each side separately |
| Text.SplitJoinedTexts | 02_Probabilidad/06_Razonamiento_Probabilistico_Lenguaje/004_Recuperacion_Datos.py:27 | splitting the space-joined texts yields their tokens one text after another |
| Counting.Count | 02_Probabilidad/06_Razonamiento_Probabilistico_Lenguaje/001_Corpus.py:42-43 | an occurrence count is at most the length and positive exactly for elements of the list |
| Counting.CountIsMultiplicity | 02_Probabilidad/06_Razonamiento_Probabilistico_Lenguaje/001_Corpus.py:42-43 | the loop count of x is x's multiplicity in the list |
| Counting.CountAppend | 02_Probabilidad/06_Razonamiento_Probabilistico_Lenguaje/001_Corpus.py:43 | one more element adds one to its own count and nothing to the others |
| Counting.CountConcat | 02_Probabilidad/06_Razonamiento_Probabilistico_Lenguaje/001_Corpus.py:24 | counts over a concatenation add up |
| Counting.CountDistinct | 02_Probabilidad/06_Razonamiento_Probabilistico_Lenguaje/004_Recuperacion_Datos.py:28 | a key of a duplicate-free listing occurs once in it |
| Counting.SumCountsIsLength | 02_Probabilidad/06_Razonamiento_Probabilistico_Lenguaje/001_Corpus.py:42-43 | summing the counts over distinct keys that cover the list gives its length |
| Counting.Touch | 02_Probabilidad/06_Razonamiento_Probabilistico_Lenguaje/001_Corpus.py:64 | a defaultdict lookup inserts a missing key with 0 and keeps every existing count |
| Counting.BumpCounts | 02_Probabilidad/06_Razonamiento_Probabilistico_Lenguaje/001_Corpus.py:43 | `d[k] += 1` on a counter of a list gives the counter of the list with k appended |
| Counting.TouchKeepsCounts | 02_Probabilidad/06_Razonamiento_Probabilistico_Lenguaje/001_Corpus.py:64 | after a lookup the counter still agrees with the occurrence counts |
| Counting.CountsTotal | 02_Probabilidad/06_Razonamiento_Probabilistico_Lenguaje/001_Corpus.py:42-43 | a counter summed over its keys gives the number of elements counted |
| EntityExtraction.TokenizeSentence | 02_Probabilidad/06_Razonamiento_Probabilistico_Lenguaje/005_Extraccion_Info.py:23-28 | `tokenizar_oracion` yields lower-case, non-empty, whitespace-free tokens |
| EntityExtraction.ScanPairs | 02_Probabilidad/06_Razonamiento_Probabilistico_Lenguaje/005_Extraccion_Info.py:40-62 | one turn of the loop: the trigram, else the bigram, else the unigram entry at i, then the rest of the scan from i+3, i+2 or i+1 |
| EntityExtraction.ExtractEntities | 02_Probabilidad/06_Razonamiento_Probabilistico_Lenguaje/005_Extraccion_Info.py:30-64 | the while loop returns exactly the pairs of the recursive scan over the sentence's tokens |
| EntityExtraction.ScanSound | 02_Probabilidad/06_Razonamiento_Probabilistico_Lenguaje/005_Extraccion_Info.py:42-60 | every match is a lexicon key with its own tag, the join of 1 to 3 consecutive tokens, and there are no more matches than tokens |
| EntityExtraction.ScanOrdered | 02_Probabilidad/06_Razonamiento_Probabilistico_Lenguaje/005_Extraccion_Info.py:46-62 | matches never overlap and come in left-to-right order |
| EntityExtraction.ScanGreedy | 02_Probabilidad/06_Razonamiento_Probabilistico_Lenguaje/005_Extraccion_Info.py:42-60 | a bigram match means no trigram entry starts there; a unigram match means neither a trigram nor a bigram entry does |
| EntityExtraction.ScanComplete | 02_Probabilidad/06_Razonamiento_Probabilistico_Lenguaje/005_Extraccion_Info.py:40-62 | at a position passed over without a match, no unigram, bigram or trigram starting there is in the lexicon |
| EntityExtraction.EmptySentence | 02_Probabilidad/06_Razonamiento_Probabilistico_Lenguaje/005_Extraccion_Info.py:40 | a sentence without tokens yields no entities |
| EntityExtraction.SampleTokenized | 02_Probabilidad/06_Razonamiento_Probabilistico_Lenguaje/005_Extraccion_Info.py:22-28 | `tokenizar_oracion` of TEXTO_NO_ESTRUCTURADO gives its 13 lower-cased tokens, commas and full stop still attached ("cook,", "apple,", "seattle.") |
| EntityExtraction.SampleEntities | 02_Probabilidad/06_Razonamiento_Probabilistico_Lenguaje/005_Extraccion_Info.py:68-70 | `extraer_entidades(TEXTO_NO_ESTRUCTURADO, DICCIONARIO_ENTIDADES)` is exactly [("amazon", "ORG")]: Tim Cook, Apple and Seattle are missed because of their punctuation |
| Corpus.CleanText | 02_Probabilidad/06_Razonamiento_Probabilistico_Lenguaje/001_Corpus.py:18 | the cleaned text is lower-case, has no '.' or ',' and keeps every other character of the lowered text |
| Corpus.TokenizeCorpus | 02_Probabilidad/06_Razonamiento_Probabilistico_Lenguaje/001_Corpus.py:13-25 | the loop yields, per text, `<INI>`, its words and `<FIN>`, in order |
| Corpus.CorpusLength | 02_Probabilidad/06_Razonamiento_Probabilistico_Lenguaje/001_Corpus.py:16-24 | the output length is the sum over texts of the word count plus 2 |
| Corpus.SentenceTokensClean | 02_Probabilidad/06_Razonamiento_Probabilistico_Lenguaje/001_Corpus.py:18-24 | the words between one text's markers are clean tokens |
| Corpus.CorpusTokensClean | 02_Probabilidad/06_Razonamiento_Probabilistico_Lenguaje/001_Corpus.py:16-24 | every token is a marker or a lower-case word without '.' or ','; the list starts with `<INI>` and ends with `<FIN>` |
| Corpus.Bigrams | 02_Probabilidad/06_Razonamiento_Probabilistico_Lenguaje/001_Corpus.py:46-47 | a list of n >= 2 tokens has n - 1 adjacent pairs |
| Corpus.BigramsAt | 02_Probabilidad/06_Razonamiento_Probabilistico_Lenguaje/001_Corpus.py:47 | pair i-1 is (TOKENS[i-1], TOKENS[i]) |
| Corpus.CountNgrams | 02_Probabilidad/06_Razonamiento_Probabilistico_Lenguaje/001_Corpus.py:38-48 | the counting loop leaves `conteo_unigramas` counting every token and `conteo_bigramas` counting every adjacent pair |
| Corpus.CounterTotals | 02_Probabilidad/06_Razonamiento_Probabilistico_Lenguaje/001_Corpus.py:42-48 | the unigram counts sum to len(TOKENS) and the bigram counts to len(TOKENS) - 1 |
| Corpus.BoundaryBigram | 02_Probabilidad/06_Razonamiento_Probabilistico_Lenguaje/001_Corpus.py:24-48 | between two texts the pair (`<FIN>`, `<INI>`) is counted |
| Corpus.BigramCountBound | 02_Probabilidad/06_Razonamiento_Probabilistico_Lenguaje/001_Corpus.py:42-48 | a pair's count never exceeds the count of its first word |
| Corpus.BigramProbability | 02_Probabilidad/06_Razonamiento_Probabilistico_Lenguaje/001_Corpus.py:60-74 | the two lookups insert missing keys with 0; an unknown previous word or an unseen pair gives 0.0; otherwise the pair count over the previous count |
| Corpus.BigramProbabilityBounded | 02_Probabilidad/06_Razonamiento_Probabilistico_Lenguaje/001_Corpus.py:73-74 | on counters built from a token list the estimate is at most 1 |
| Retrieval.DropStopWords | 02_Probabilidad/06_Razonamiento_Probabilistico_Lenguaje/004_Recuperacion_Datos.py:18 | the filter never lengthens the tokens and keeps exactly the tokens that are not stop words |
| Retrieval.Preprocess | 02_Probabilidad/06_Razonamiento_Probabilistico_Lenguaje/004_Recuperacion_Datos.py:16-19 | `preprocesar` keeps exactly the tokens of the lower-cased text that are not stop words, and each is a lower-case, whitespace-free word |
| Retrieval.DropStopWordsCount | 02_Probabilidad/06_Razonamiento_Probabilistico_Lenguaje/004_Recuperacion_Datos.py:18 | every stop word is removed and every other token keeps its multiplicity |
| Retrieval.StrLessIrreflexive | 02_Probabilidad/06_Razonamiento_Probabilistico_Lenguaje/004_Recuperacion_Datos.py:26 | Python's string order is irreflexive |
| Retrieval.StrLessAsymmetric | 02_Probabilidad/06_Razonamiento_Probabilistico_Lenguaje/004_Recuperacion_Datos.py:26 | Python's string order is asymmetric |
| Retrieval.StrLessTransitive | 02_Probabilidad/06_Razonamiento_Probabilistico_Lenguaje/004_Recuperacion_Datos.py:26 | Python's string order is transitive |
| Retrieval.StrLessTotal | 02_Probabilidad/06_Razonamiento_Probabilistico_Lenguaje/004_Recuperacion_Datos.py:26 | any two different strings are ordered one way or the other |
| Retrieval.Insert | 02_Probabilidad/06_Razonamiento_Probabilistico_Lenguaje/004_Recuperacion_Datos.py:26 | inserting a word into a strictly sorted list keeps it strictly sorted with the word added |
| Retrieval.SortedSet | 02_Probabilidad/06_Razonamiento_Probabilistico_Lenguaje/004_Recuperacion_Datos.py:26 | `sorted(set(ws))` is strictly sorted and holds exactly the words of ws |
| Retrieval.SortedDistinct | 02_Probabilidad/06_Razonamiento_Probabilistico_Lenguaje/004_Recuperacion_Datos.py:26 | a strictly sorted list has no duplicates |
| Retrieval.SortedListingUnique | 02_Probabilidad/06_Razonamiento_Probabilistico_Lenguaje/004_Recuperacion_Datos.py:26 | two strictly sorted listings of the same words are equal |
| Retrieval.Flatten | 02_Probabilidad/06_Razonamiento_Probabilistico_Lenguaje/004_Recuperacion_Datos.py:27 | the flattened documents hold exactly the words of some document |
| Retrieval.Vocabulary | 02_Probabilidad/06_Razonamiento_Probabilistico_Lenguaje/004_Recuperacion_Datos.py:26-28 | VOCABULARIO is strictly sorted and holds exactly the document and query words |
| Retrieval.IndexMap | 02_Probabilidad/06_Razonamiento_Probabilistico_Lenguaje/004_Recuperacion_Datos.py:40 | vocab_map has exactly the vocabulary's words as keys, each mapped to a position holding it |
| Retrieval.IndexMapPosition | 02_Probabilidad/06_Razonamiento_Probabilistico_Lenguaje/004_Recuperacion_Datos.py:40 | over a duplicate-free vocabulary vocab_map[w] is w's position |
| Retrieval.TermCounts | 02_Probabilidad/06_Razonamiento_Probabilistico_Lenguaje/004_Recuperacion_Datos.py:43-47 | entry j of a TF row is the count of word j in the document |
| Retrieval.SumTermCounts | 02_Probabilidad/06_Razonamiento_Probabilistico_Lenguaje/004_Recuperacion_Datos.py:43-47 | a TF row sums to the counts of the vocabulary's words |
| Retrieval.TermCountsSum | 02_Probabilidad/06_Razonamiento_Probabilistico_Lenguaje/004_Recuperacion_Datos.py:43-47 | the TF row of a document whose words are all in the vocabulary sums to its token count |
| Retrieval.TokenStep | 02_Probabilidad/06_Razonamiento_Probabilistico_Lenguaje/004_Recuperacion_Datos.py:45-47 | one more token adds 1 at its own vocabulary index only |
| Retrieval.CountRow | 02_Probabilidad/06_Razonamiento_Probabilistico_Lenguaje/004_Recuperacion_Datos.py:45-47 | the inner loop sets row i to the document's counts and leaves every other row alone |
| Retrieval.DocumentTermCounts | 02_Probabilidad/06_Razonamiento_Probabilistico_Lenguaje/004_Recuperacion_Datos.py:43-47 | TF_docs[i][j] counts VOCABULARIO[j] in document i |
| Retrieval.QueryTermCounts | 02_Probabilidad/06_Razonamiento_Probabilistico_Lenguaje/004_Recuperacion_Datos.py:60-63 | TF_query[j] counts VOCABULARIO[j] in the query |
| Retrieval.DocumentFrequency | 02_Probabilidad/06_Razonamiento_Probabilistico_Lenguaje/004_Recuperacion_Datos.py:51 | df is between 0 and N_DOCS: 0 exactly when no document has the word, N_DOCS exactly when all do |
| Retrieval.SqNormSign | 02_Probabilidad/06_Razonamiento_Probabilistico_Lenguaje/004_Recuperacion_Datos.py:70-71 | the squared norm is 0 on the zero vector and positive otherwise |
| Retrieval.DotSelf | 02_Probabilidad/06_Razonamiento_Probabilistico_Lenguaje/004_Recuperacion_Datos.py:69-71 | a vector's dot product with itself is its squared norm |
| Retrieval.NormZero | 02_Probabilidad/06_Razonamiento_Probabilistico_Lenguaje/004_Recuperacion_Datos.py:73 | a norm is zero exactly on the zero vector |
| Retrieval.Cosine | 02_Probabilidad/06_Razonamiento_Probabilistico_Lenguaje/004_Recuperacion_Datos.py:67-75 | the similarity is 0.0 whenever either vector is zero |
| Retrieval.CosineSelf | 02_Probabilidad/06_Razonamiento_Probabilistico_Lenguaje/004_Recuperacion_Datos.py:73-75 | a non-zero vector has similarity 1 with itself |
| Retrieval.InsertByScore | 02_Probabilidad/06_Razonamiento_Probabilistico_Lenguaje/004_Recuperacion_Datos.py:84 | inserting into the ranking adds exactly that item |
| Retrieval.Rank | 02_Probabilidad/06_Razonamiento_Probabilistico_Lenguaje/004_Recuperacion_Datos.py:84 | the ranking is a permutation of the items |
| Retrieval.InsertByScoreBounded | 02_Probabilidad/06_Razonamiento_Probabilistico_Lenguaje/004_Recuperacion_Datos.py:84 | inserting below a bound keeps every score below it |
| Retrieval.InsertByScoreSorted | 02_Probabilidad/06_Razonamiento_Probabilistico_Lenguaje/004_Recuperacion_Datos.py:84 | inserting into a non-increasing ranking keeps it non-increasing |
| Retrieval.RankSorted | 02_Probabilidad/06_Razonamiento_Probabilistico_Lenguaje/004_Recuperacion_Datos.py:84 | the ranking is in non-increasing order of similarity |
| Retrieval.WithScoreAppend | 02_Probabilidad/06_Razonamiento_Probabilistico_Lenguaje/004_Recuperacion_Datos.py:84 | the items of one score in a concatenation are those of each part, in order |
| Retrieval.InsertByScoreStable | 02_Probabilidad/06_Razonamiento_Probabilistico_Lenguaje/004_Recuperacion_Datos.py:84 | an inserted item comes after the earlier items with its score |
| Retrieval.InsertAtFrontStable | 02_Probabilidad/06_Razonamiento_Probabilistico_Lenguaje/004_Recuperacion_Datos.py:84 | an item placed before every lower score keeps each score's order |
| Retrieval.NoneWithScore | 02_Probabilidad/06_Razonamiento_Probabilistico_Lenguaje/004_Recuperacion_Datos.py:84 | a ranking without a score has no items with that score |
| Retrieval.RankStable | 02_Probabilidad/06_Razonamiento_Probabilistico_Lenguaje/004_Recuperacion_Datos.py:84 | the sort is stable: items with the same similarity keep their input order |
| Translation.TallyCounts | 02_Probabilidad/06_Razonamiento_Probabilistico_Lenguaje/006_Traduccion_Estadistica.py:28-36 | the `d.get(x, 0) + 1` counter lists each pair once, in order of first occurrence, with its number of occurrences |
| Translation.Row | 02_Probabilidad/06_Razonamiento_Probabilistico_Lenguaje/006_Traduccion_Estadistica.py:25-28 | the inner loop pairs the source phrase with every target token, in order |
| Translation.GridLength | 02_Probabilidad/06_Razonamiento_Probabilistico_Lenguaje/006_Traduccion_Estadistica.py:23-36 | a pair of nested loops over m and n phrases yields m·n pairs |
| Translation.TwoTokenPhrases | 02_Probabilidad/06_Razonamiento_Probabilistico_Lenguaje/006_Traduccion_Estadistica.py:31-34 | a sentence of n >= 1 tokens has n - 1 two-token phrases |
| Translation.SentencePairsCount | 02_Probabilidad/06_Razonamiento_Probabilistico_Lenguaje/006_Traduccion_Estadistica.py:23-36 | a sentence pair with m and n tokens adds m·n one-token pairs and (m-1)(n-1) two-token pairs |
| Translation.TallyStep | 02_Probabilidad/06_Razonamiento_Probabilistico_Lenguaje/006_Traduccion_Estadistica.py:28 | counting one more pair is one more increment |
| Translation.CountRow | 02_Probabilidad/06_Razonamiento_Probabilistico_Lenguaje/006_Traduccion_Estadistica.py:25-28 | the inner loop leaves the counter of all pairs so far plus one row |
| Translation.CountGrid | 02_Probabilidad/06_Razonamiento_Probabilistico_Lenguaje/006_Traduccion_Estadistica.py:23-28 | one pair of nested loops leaves the counter of all pairs so far plus the grid |
| Translation.CountPhrasePairs | 02_Probabilidad/06_Razonamiento_Probabilistico_Lenguaje/006_Traduccion_Estadistica.py:15-36 | `conteo_pares` is the count of the stream of extracted pairs, over the whole corpus |
| Translation.CountSources | 02_Probabilidad/06_Razonamiento_Probabilistico_Lenguaje/006_Traduccion_Estadistica.py:39-41 | `conteo_fuente` has exactly the source phrases of the pairs, each with the sum of their counts |
| Translation.NoSourceTotal | 02_Probabilidad/06_Razonamiento_Probabilistico_Lenguaje/006_Traduccion_Estadistica.py:39-41 | a phrase with no listed pair has total 0 |
| Translation.SourceTotalIsOccurrences | 02_Probabilidad/06_Razonamiento_Probabilistico_Lenguaje/006_Traduccion_Estadistica.py:39-41 | `conteo_fuente[f]` is the number of extracted pairs whose source phrase is f |
| Translation.PairWithinSource | 02_Probabilidad/06_Razonamiento_Probabilistico_Lenguaje/006_Traduccion_Estadistica.py:47-50 | a pair's count is at most its source phrase's total |
| Translation.BuildTable | 02_Probabilidad/06_Razonamiento_Probabilistico_Lenguaje/006_Traduccion_Estadistica.py:44-54 | the table loop computes the table of the listed pairs |
| Translation.TableKeys | 02_Probabilidad/06_Razonamiento_Probabilistico_Lenguaje/006_Traduccion_Estadistica.py:46-54 | every source phrase of a pair gets exactly one entry and no other phrase does |
| Translation.TableBest | 02_Probabilidad/06_Razonamiento_Probabilistico_Lenguaje/006_Traduccion_Estadistica.py:47-54 | the stored entry is a pair of its phrase with its probability; no pair of the phrase is more probable; on ties the first one listed is kept |
| Translation.BestReplaced | 02_Probabilidad/06_Razonamiento_Probabilistico_Lenguaje/006_Traduccion_Estadistica.py:52-54 | a later pair of strictly higher probability replaces the stored entry |
| Translation.FirstOfPhrase | 02_Probabilidad/06_Razonamiento_Probabilistico_Lenguaje/006_Traduccion_Estadistica.py:52-54 | the first pair of a phrase is stored |
| Translation.BestKept | 02_Probabilidad/06_Razonamiento_Probabilistico_Lenguaje/006_Traduccion_Estadistica.py:52 | a later pair that is not strictly more probable leaves the entry as it was |
| Translation.TableProbability | 02_Probabilidad/06_Razonamiento_Probabilistico_Lenguaje/006_Traduccion_Estadistica.py:47-50 | on the corpus' own counts a pair's count is positive and at most its source total, so the probability lies in (0, 1] |
| Translation.StreamSourcesShort | 02_Probabilidad/06_Razonamiento_Probabilistico_Lenguaje/006_Traduccion_Estadistica.py:24-32 | every source phrase has one or two tokens |
| Translation.SourceSentenceNotFound | 02_Probabilidad/06_Razonamiento_Probabilistico_Lenguaje/006_Traduccion_Estadistica.py:66-77 | FRASE_FUENTE has three tokens, so for any corpus the lookup takes the "not found" branch |
| Translation.Translate | 02_Probabilidad/06_Razonamiento_Probabilistico_Lenguaje/006_Traduccion_Estadistica.py:66-68 | the lookup of a phrase gives its stored (translation, probability) entry, and nothing exactly when the phrase is not in `tabla_frases` |
| Translation.TranslateSentence | 02_Probabilidad/06_Razonamiento_Probabilistico_Lenguaje/006_Traduccion_Estadistica.py:15-77 | the script's table has an entry for exactly the source phrases of the pairs, each a pair from the corpus with probability in (0, 1], and the sentence is not found |
| NaiveBayes.Vocabulary | 02_Probabilidad/04_Aprendizaje_Probabilistico/002_Naive_Bayes.py:21 | the vocabulary holds exactly the tokens of the messages |
| NaiveBayes.CountClasses | 02_Probabilidad/04_Aprendizaje_Probabilistico/002_Naive_Bayes.py:24-26 | `conteo_clases` counts every label |
| NaiveBayes.CountMessage | 02_Probabilidad/04_Aprendizaje_Probabilistico/002_Naive_Bayes.py:32-35 | the inner loop counts one message's tokens under its label in both counters and leaves every other class alone |
| NaiveBayes.TrainedStep | 02_Probabilidad/04_Aprendizaje_Probabilistico/002_Naive_Bayes.py:34-35 | one more token of a class keeps both counters in step with that class's tokens |
| NaiveBayes.CountWords | 02_Probabilidad/04_Aprendizaje_Probabilistico/002_Naive_Bayes.py:28-35 | after the zip loop, each class's word counter and word total hold exactly the tokens of the messages with that label |
| NaiveBayes.TotalIsSumOfWordCounts | 02_Probabilidad/04_Aprendizaje_Probabilistico/002_Naive_Bayes.py:31-35 | a class's word total is the sum of its per-word counts and the number of its tokens |
| NaiveBayes.ClassWordsInVocabulary | 02_Probabilidad/04_Aprendizaje_Probabilistico/002_Naive_Bayes.py:21-32 | every counted word is in the vocabulary |
| NaiveBayes.Priors | 02_Probabilidad/04_Aprendizaje_Probabilistico/002_Naive_Bayes.py:38-40 | the priors are the class counts over the message count, a ZeroDivisionError when there are no messages |
| NaiveBayes.PriorsSumToOne | 02_Probabilidad/04_Aprendizaje_Probabilistico/002_Naive_Bayes.py:20-40 | with one label per message, all of them spam or ham, P_spam and P_ham lie in [0, 1] and add up to 1 |
| NaiveBayes.TwoLabels | 02_Probabilidad/04_Aprendizaje_Probabilistico/002_Naive_Bayes.py:20-26 | when every label is spam or ham the two class counts add up to the number of labels |
| NaiveBayes.WordProbability | 02_Probabilidad/04_Aprendizaje_Probabilistico/002_Naive_Bayes.py:47-52 | the smoothed probability is (count + ALPHA) / (class total + ALPHA·\|V\|), positive, and a ZeroDivisionError exactly when that denominator is 0 |
| NaiveBayes.WordCountIsCount | 02_Probabilidad/04_Aprendizaje_Probabilistico/002_Naive_Bayes.py:49-50 | on trained counters `.get(palabra, 0)` is the word's count in the class and the total its number of tokens |
| NaiveBayes.ProbabilitySumIsRatio | 02_Probabilidad/04_Aprendizaje_Probabilistico/002_Naive_Bayes.py:51 | the smoothed probabilities of a word list sum to (counts + list length) over the common denominator |
| NaiveBayes.ProbabilitiesSumToOne | 02_Probabilidad/04_Aprendizaje_Probabilistico/002_Naive_Bayes.py:21-52 | over the training vocabulary the smoothed probabilities of a class add up to 1 |
| NaiveBayes.DistinctCardinality | 02_Probabilidad/04_Aprendizaje_Probabilistico/002_Naive_Bayes.py:57 | a duplicate-free listing of the vocabulary has its size |
| NaiveBayes.Score | 02_Probabilidad/04_Aprendizaje_Probabilistico/002_Naive_Bayes.py:59-69 | a class score is positive when the prior is, 0 when the prior is, and a ZeroDivisionError only when a token meets a zero denominator |
| NaiveBayes.Decide | 02_Probabilidad/04_Aprendizaje_Probabilistico/002_Naive_Bayes.py:71 | the verdict is spam exactly when the spam score is strictly greater, ham otherwise, ties included |
| NaiveBayes.ClassScore | 02_Probabilidad/04_Aprendizaje_Probabilistico/002_Naive_Bayes.py:60-69 | each scoring loop computes the class score |
| NaiveBayes.Classify | 02_Probabilidad/04_Aprendizaje_Probabilistico/002_Naive_Bayes.py:54-73 | the classifier returns the decision and both scores, or the ZeroDivisionError of either scoring loop |
| NaiveBayes.UnseenWordKeepsDecision | 02_Probabilidad/04_Aprendizaje_Probabilistico/002_Naive_Bayes.py:49-71 | a word neither class has seen, with equal class totals, does not change the decision |
| Hamming.Distance | 02_Probabilidad/05_Redes_Neuronales/007.1_Hamming.py:24-25 | the distance is 0 exactly when the input equals the pattern |
| Hamming.DistanceOfBits | 02_Probabilidad/05_Redes_Neuronales/007.1_Hamming.py:22-25 | on 0/1 vectors the distance is the number of differing positions, at most the length |
| Hamming.DistanceSymmetric | 02_Probabilidad/05_Redes_Neuronales/007.1_Hamming.py:24-25 | the distance does not depend on which vector is the input |
| Hamming.FirstMin | 02_Probabilidad/05_Redes_Neuronales/007.1_Hamming.py:29 | `min(d, key=d.get)` picks a smallest distance, and no earlier entry is as small |
| Hamming.ClassifyHamming | 02_Probabilidad/05_Redes_Neuronales/007.1_Hamming.py:16-31 | one distance per pattern, in order, and the label of the first nearest pattern; a ValueError for no patterns or a length mismatch |
| Hamming.NearestFirst | 02_Probabilidad/05_Redes_Neuronales/007.1_Hamming.py:29 | the returned label has minimal distance, no earlier pattern is as close, and a stored pattern is recognised at distance 0 |
| Hamming.SampleClassification | 02_Probabilidad/05_Redes_Neuronales/007.1_Hamming.py:5-35 | the noisy input is 1 from A and 6 from B, so it is classified as A |
| Hebb.Learn | 02_Probabilidad/05_Redes_Neuronales/007.2_Hebb.py:22-28 | the learning loop computes the weight after the scenarios, applied in order |
| Hebb.ChangeOfBits | 02_Probabilidad/05_Redes_Neuronales/007.2_Hebb.py:25 | with 0/1 activations a step adds the rate exactly when both neurons fire, 0 otherwise |
| Hebb.WeightOfBits | 02_Probabilidad/05_Redes_Neuronales/007.2_Hebb.py:22-28 | with 0/1 activations the final weight is the initial weight plus the rate once per scenario where both fire |
| Hebb.WeightNeverDecreases | 02_Probabilidad/05_Redes_Neuronales/007.2_Hebb.py:5-28 | with a non-negative rate and activations no step lowers the weight |
| Hebb.NonNegativeChange | 02_Probabilidad/05_Redes_Neuronales/007.2_Hebb.py:25 | a non-negative rate and activations give a non-negative change |
| Hebb.SampleWeight | 02_Probabilidad/05_Redes_Neuronales/007.2_Hebb.py:4-13 | the script's scenarios take the weight from 0.1 to 1.1 |
| Hebb.WeightOrderIndependent | 02_Probabilidad/05_Redes_Neuronales/007.2_Hebb.py:22-28 | reordering the scenarios does not change the final weight |
| Hebb.WeightRemove | 02_Probabilidad/05_Redes_Neuronales/007.2_Hebb.py:28 | taking one scenario out removes exactly its change |
| Neuron.Step | 02_Probabilidad/05_Redes_Neuronales/001_Comput_Neuronal.py:5-10 | the neuron outputs 1 exactly when z >= 0, and 0 otherwise |
| Neuron.Perceptron | 02_Probabilidad/05_Redes_Neuronales/001_Comput_Neuronal.py:32-42 | the output is the step of z = x·W + B; vectors of different lengths are a ValueError |
| Neuron.StepMonotone | 02_Probabilidad/05_Redes_Neuronales/001_Comput_Neuronal.py:10 | a larger weighted sum never gives a smaller output |
| Neuron.DotMonotone | 02_Probabilidad/05_Redes_Neuronales/001_Comput_Neuronal.py:37 | with non-negative weights, raising inputs never lowers the weighted sum |
| Neuron.OutputMonotone | 02_Probabilidad/05_Redes_Neuronales/001_Comput_Neuronal.py:32-42 | with non-negative weights, raising inputs never lowers the output |
| Neuron.AndTruthTable | 02_Probabilidad/05_Redes_Neuronales/001_Comput_Neuronal.py:17-28 | the script's four inputs give the sums -0.7, -0.2, -0.2 and 0.3 and the outputs 0, 0, 0 and 1 |
| Neuron.ComputesAnd | 02_Probabilidad/05_Redes_Neuronales/001_Comput_Neuronal.py:17-22 | on 0/1 inputs the neuron fires exactly when both inputs are 1 |
| Activation.Relu | 02_Probabilidad/05_Redes_Neuronales/002_Func_Activacion.py:4-6 | relu is at least 0 and at least x, and is one of them |
| Activation.ReluDerivative | 02_Probabilidad/05_Redes_Neuronales/002_Func_Activacion.py:8-10 | the derivative is 1 exactly when x > 0, and 0 otherwise |
| Activation.ReluCases | 02_Probabilidad/05_Redes_Neuronales/002_Func_Activacion.py:4-6 | relu is x on non-negative inputs and 0 on negative ones |
| Activation.ReluIdempotent | 02_Probabilidad/05_Redes_Neuronales/002_Func_Activacion.py:4-6 | rectifying twice is rectifying once |
| Activation.ReluIsInputTimesDerivative | 02_Probabilidad/05_Redes_Neuronales/002_Func_Activacion.py:4-10 | relu(x) is x times its derivative |
| Activation.SampleValues | 02_Probabilidad/05_Redes_Neuronales/002_Func_Activacion.py:29-35 | the sample inputs -2, 0 and 3 rectify to 0, 0 and 3 |
| PerceptronTraining.SampleError | 02_Probabilidad/05_Redes_Neuronales/003_Perceptron.py:37-42 | the error of a sample is defined for the kinds Perceptron and ADALINE; any other kind leaves `error` unbound, a NameError |
| PerceptronTraining.Nudge | 02_Probabilidad/05_Redes_Neuronales/003_Perceptron.py:50 | `W += c * x` keeps the number of weights |
| PerceptronTraining.AddScaled | 02_Probabilidad/05_Redes_Neuronales/003_Perceptron.py:50 | the in-place update of the weight array adds c times x entry by entry |
| PerceptronTraining.EpochPass | 02_Probabilidad/05_Redes_Neuronales/003_Perceptron.py:32-53 | the inner loop updates W in place and returns the bias and the error sum of a pass over the samples, or its error |
| PerceptronTraining.TrainNeuron | 02_Probabilidad/05_Redes_Neuronales/003_Perceptron.py:21-57 | training for EPOCHS passes returns the final weights, the final bias and one mean squared error per epoch, as the recursive definition does |
| PerceptronTraining.EpochPrefixOutcome | 02_Probabilidad/05_Redes_Neuronales/003_Perceptron.py:32-53 | a pass fails, with a NameError, exactly when a sample is visited with an unknown kind, and the error sum never decreases |
| PerceptronTraining.Epoch | 02_Probabilidad/05_Redes_Neuronales/003_Perceptron.py:29-53 | an epoch over an empty dataset is a ZeroDivisionError from `error_total / len(X)`; otherwise its error times len(X) is the pass's sum of squared errors, and the weights keep their length |
| PerceptronTraining.Train | 02_Probabilidad/05_Redes_Neuronales/003_Perceptron.py:20-55 | training returns weights of the initial length and one entry of `errores` per epoch |
| PerceptronTraining.TrainOutcome | 02_Probabilidad/05_Redes_Neuronales/003_Perceptron.py:29-57 | training is a ZeroDivisionError on an empty dataset, a NameError for an unknown kind once a sample is visited, and otherwise one non-negative mean squared error per epoch |
| PerceptronTraining.ZeroErrorKeepsState | 02_Probabilidad/05_Redes_Neuronales/003_Perceptron.py:50-53 | a sample with zero error leaves weights, bias and error sum as they were |
| PerceptronTraining.ErrorOfKind | 02_Probabilidad/05_Redes_Neuronales/003_Perceptron.py:12-42 | with a 0/1 target the Perceptron error is -1, 0 or 1, and 0 exactly when the prediction is right; the ADALINE error is 0 exactly when the weighted sum is the target |
| PerceptronTraining.FittedEpochPrefix | 02_Probabilidad/05_Redes_Neuronales/003_Perceptron.py:32-53 | weights that fit every sample pass through a pass unchanged, with error sum 0 |
| PerceptronTraining.FittedEpoch | 02_Probabilidad/05_Redes_Neuronales/003_Perceptron.py:29-55 | weights that fit every sample are a fixed point of an epoch, with mean squared error 0 |
| Bandit.Pull | 02_Probabilidad/01_Insertidumbre_Y_Probabilidad/001_Incertidumbre.py:20-22 | given the uniform draw u, the reward is 1 exactly when u is below the arm's true probability, and 0 otherwise |
| Bandit.BlendBetween | 02_Probabilidad/01_Insertidumbre_Y_Probabilidad/001_Incertidumbre.py:35-38 | with ALPHA in [0, 1] the new estimate lies between the old estimate and the reward |
| Bandit.SumIncrement | 02_Probabilidad/01_Insertidumbre_Y_Probabilidad/001_Incertidumbre.py:31 | one more pull of an arm adds one to the total of the counts |
| Bandit.Play | 02_Probabilidad/01_Insertidumbre_Y_Probabilidad/001_Incertidumbre.py:45-54 | one step of the main loop keeps the tables well-formed |
| Bandit.Simulate | 02_Probabilidad/01_Insertidumbre_Y_Probabilidad/001_Incertidumbre.py:45-54 | the main loop keeps the tables well-formed |
| Bandit.SimulateCountsPulls | 02_Probabilidad/01_Insertidumbre_Y_Probabilidad/001_Incertidumbre.py:31-54 | every step counts exactly one pull |
| Bandit.SimulateStaysBounded | 02_Probabilidad/01_Insertidumbre_Y_Probabilidad/001_Incertidumbre.py:12-38 | with 0/1 rewards every estimate stays between 0 and Q_INICIAL |
| Bandit.FreshAgent | 02_Probabilidad/01_Insertidumbre_Y_Probabilidad/001_Incertidumbre.py:6-45 | a fresh agent first picks arm 0; after PASOS steps the counts total PASOS and every estimate is between 0 and 5 |
| Bandit.Agent.constructor | 02_Probabilidad/01_Insertidumbre_Y_Probabilidad/001_Incertidumbre.py:15-16 | the arrays start at Q_INICIAL and 0 |
| Bandit.Agent.ChooseGreedy | 02_Probabilidad/01_Insertidumbre_Y_Probabilidad/001_Incertidumbre.py:24-27 | `np.argmax` picks the first arm of highest estimate |
| Bandit.Agent.Update | 02_Probabilidad/01_Insertidumbre_Y_Probabilidad/001_Incertidumbre.py:29-38 | `actualizar_Q` counts one more pull of arm a and moves its estimate by ALPHA times the error; nothing else changes |
| Bandit.Agent.Run | 02_Probabilidad/01_Insertidumbre_Y_Probabilidad/001_Incertidumbre.py:45-54 | the loop over the draws leaves the tables the functional simulation gives |
| Texture.Stripe | 02_Probabilidad/07_Percepcion/004_Texturas.py:27-37 | a pixel is light exactly when (x + y) % espaciado < espaciado // 2, dark otherwise |
| Texture.StripePeriodic | 02_Probabilidad/07_Percepcion/004_Texturas.py:29-34 | the value at x + y + `espaciado` equals the value at x + y, so the pattern repeats every `espaciado` steps along either axis |
| Texture.StripeHalfShift | 02_Probabilidad/07_Percepcion/004_Texturas.py:34 | half a period further on, light and dark swap, so the stripes have equal width |
| Texture.AntiDiagonal | 02_Probabilidad/07_Percepcion/004_Texturas.py:34 | pixels on one anti-diagonal share their value |
| Texture.DiagonalTexture | 02_Probabilidad/07_Percepcion/004_Texturas.py:26-37 | the nested loops fill a new `alto` × `ancho` image with the stripe value of x + y at every pixel |
| Pcfg.TreeProbability | 02_Probabilidad/06_Razonamiento_Probabilistico_Lenguaje/002_Gram_Prob_Indep_Contexto.py:34-44 | `calcular_probabilidad_arbol` returns the product of the rules' probabilities |
| Pcfg.ProductAppend | 02_Probabilidad/06_Razonamiento_Probabilistico_Lenguaje/002_Gram_Prob_Indep_Contexto.py:39-42 | the score of a tree made of two parts is the product of their scores |
| Pcfg.ProductMiddle | 02_Probabilidad/06_Razonamiento_Probabilistico_Lenguaje/002_Gram_Prob_Indep_Contexto.py:39-42 | taking one rule out of a tree divides its score by that rule's probability |
| Pcfg.ProductRemove | 02_Probabilidad/06_Razonamiento_Probabilistico_Lenguaje/002_Gram_Prob_Indep_Contexto.py:39-42 | the score is the score without rule k times rule k's probability |
| Pcfg.ProductSnoc | 02_Probabilidad/06_Razonamiento_Probabilistico_Lenguaje/002_Gram_Prob_Indep_Contexto.py:42 | appending a rule multiplies the score by its probability |
| Pcfg.FindRule | 02_Probabilidad/06_Razonamiento_Probabilistico_Lenguaje/002_Gram_Prob_Indep_Contexto.py:41 | the last rule of a tree occurs in any reordering of it, and what is left is again a reordering |
| Pcfg.ProductPermutation | 02_Probabilidad/06_Razonamiento_Probabilistico_Lenguaje/002_Gram_Prob_Indep_Contexto.py:39-42 | the order in which the rules are listed does not change the score |
| Pcfg.ProductIgnoresLabels | 02_Probabilidad/06_Razonamiento_Probabilistico_Lenguaje/002_Gram_Prob_Indep_Contexto.py:41-42 | only the probabilities count: non-terminals and productions play no part |
| Pcfg.ProductInUnit | 02_Probabilidad/06_Razonamiento_Probabilistico_Lenguaje/002_Gram_Prob_Indep_Contexto.py:39-42 | rules with probabilities in [0, 1] give a score in [0, 1], and each further rule can only lower it |
| Pcfg.GrammarIsProper | 02_Probabilidad/06_Razonamiento_Probabilistico_Lenguaje/002_Gram_Prob_Indep_Contexto.py:3-29 | the productions of every non-terminal have probabilities adding up to 1 |
| Pcfg.TreesAgainstGrammar | 02_Probabilidad/06_Razonamiento_Probabilistico_Lenguaje/002_Gram_Prob_Indep_Contexto.py:47-93 | the simple tree uses only grammar rules; the complex tree's closing lexical rule is not one |
| Pcfg.PrefixProducts | 02_Probabilidad/06_Razonamiento_Probabilistico_Lenguaje/002_Gram_Prob_Indep_Contexto.py:41-42 | each pass of the loop multiplies the running product by the next rule |
| Pcfg.TreeScores | 02_Probabilidad/06_Razonamiento_Probabilistico_Lenguaje/002_Gram_Prob_Indep_Contexto.py:62-105 | the simple tree scores 0.01008, the complex one 0.00024, so the simple tree is chosen |
| Pcfg.SimpleTreeScore | 02_Probabilidad/06_Razonamiento_Probabilistico_Lenguaje/002_Gram_Prob_Indep_Contexto.py:62-70 | the simple tree scores 0.01008 |
| Pcfg.SyntaxScore | 02_Probabilidad/06_Razonamiento_Probabilistico_Lenguaje/002_Gram_Prob_Indep_Contexto.py:49-52 | the syntactic rules of the simple tree score 0.448 |
| Pcfg.LexiconScore | 02_Probabilidad/06_Razonamiento_Probabilistico_Lenguaje/002_Gram_Prob_Indep_Contexto.py:55-59 | the lexical rules of the simple tree score 0.0225 |
| Pcfg.ComplexTreeScore | 02_Probabilidad/06_Razonamiento_Probabilistico_Lenguaje/002_Gram_Prob_Indep_Contexto.py:96-100 | the complex tree scores 0.00024 |
| Lpcfg.RuleName | 02_Probabilidad/06_Razonamiento_Probabilistico_Lenguaje/003_Gram_Prob_Lexical.py:35 | the key `'FV -> V(v)'` holds v between a fixed prefix and suffix |
| Lpcfg.RuleNameInjective | 02_Probabilidad/06_Razonamiento_Probabilistico_Lenguaje/003_Gram_Prob_Lexical.py:35 | different verbs give different rule keys |
| Lpcfg.RuleExists | 02_Probabilidad/06_Razonamiento_Probabilistico_Lenguaje/003_Gram_Prob_Lexical.py:7-35 | the verb-phrase rule is defined exactly for a known head and a known verb |
| Lpcfg.PhraseProbability | 02_Probabilidad/06_Razonamiento_Probabilistico_Lenguaje/003_Gram_Prob_Lexical.py:26-51 | `calcular_probabilidad_frase` is 0.0 for an undefined rule, otherwise P(FV \| head) P(N) P(V), with a KeyError for a missing lexical entry |
| Lpcfg.PhraseTotal | 02_Probabilidad/06_Razonamiento_Probabilistico_Lenguaje/003_Gram_Prob_Lexical.py:34-49 | the KeyError never happens, and the phrase is positive exactly when both words are known, and below 1 |
| Lpcfg.TablesAreDistributions | 02_Probabilidad/06_Razonamiento_Probabilistico_Lenguaje/003_Gram_Prob_Lexical.py:7-24 | each head's verb-phrase rules and both lexical tables add up to 1 |
| Lpcfg.AgreementPreferred | 02_Probabilidad/06_Razonamiento_Probabilistico_Lenguaje/003_Gram_Prob_Lexical.py:82-85 | for either head, the agreeing verb scores higher than the other one |
| Lpcfg.ScriptValues | 02_Probabilidad/06_Razonamiento_Probabilistico_Lenguaje/003_Gram_Prob_Lexical.py:61-77 | "perro mira" 0.285, "perro miran" 0.015, "perros miran" 0.18 |
| BetaLearning.Factorial | 02_Probabilidad/04_Aprendizaje_Probabilistico/001_Apren_Bayesiano.py:10 | n! is at least 1 |
| BetaLearning.PyFactorial | 02_Probabilidad/04_Aprendizaje_Probabilistico/001_Apren_Bayesiano.py:6-10 | `factorial` raises ValueError exactly for a negative argument and otherwise returns n!, at least n |
| BetaLearning.FactorialAtLeast | 02_Probabilidad/04_Aprendizaje_Probabilistico/001_Apren_Bayesiano.py:10 | n! >= n |
| BetaLearning.Ratio | 02_Probabilidad/04_Aprendizaje_Probabilistico/001_Apren_Bayesiano.py:22 | the guarded expression raises ValueError exactly when a < 1 or b < 1, else (a+b-1)! / ((a-1)! (b-1)!) |
| BetaLearning.Coefficient | 02_Probabilidad/04_Aprendizaje_Probabilistico/001_Apren_Bayesiano.py:19-29 | `normalizacion` is positive |
| BetaLearning.Fallback | 02_Probabilidad/04_Aprendizaje_Probabilistico/001_Apren_Bayesiano.py:23-29 | both arms of the except give 1.0, and the `a == 1 and b == 1` arm never runs |
| BetaLearning.CoefficientSymmetric | 02_Probabilidad/04_Aprendizaje_Probabilistico/001_Apren_Bayesiano.py:22 | the coefficient is symmetric in a and b |
| BetaLearning.CoefficientOfOne | 02_Probabilidad/04_Aprendizaje_Probabilistico/001_Apren_Bayesiano.py:22-26 | Beta(a, 1) has coefficient a; the uniform Beta(1, 1) has 1 |
| BetaLearning.CoefficientStep | 02_Probabilidad/04_Aprendizaje_Probabilistico/001_Apren_Bayesiano.py:22 | raising a by one multiplies the coefficient by (a + b) / a |
| BetaLearning.CoefficientValue | 02_Probabilidad/04_Aprendizaje_Probabilistico/001_Apren_Bayesiano.py:22 | for parameters at least 1 the coefficient is (a+b-1)! / ((a-1)! (b-1)!) over reals |
| BetaLearning.FactorialStep | 02_Probabilidad/04_Aprendizaje_Probabilistico/001_Apren_Bayesiano.py:10 | 0! = 1 and (n+1)! = (n+1) n! |
| BetaLearning.Pow | 02_Probabilidad/04_Aprendizaje_Probabilistico/001_Apren_Bayesiano.py:35 | `np.power` of a non-zero base is non-zero |
| BetaLearning.PowNonNegative | 02_Probabilidad/04_Aprendizaje_Probabilistico/001_Apren_Bayesiano.py:35 | a non-negative base gives a non-negative power |
| BetaLearning.PowAdd | 02_Probabilidad/04_Aprendizaje_Probabilistico/001_Apren_Bayesiano.py:35 | powers add their exponents |
| BetaLearning.PdfNonNegative | 02_Probabilidad/04_Aprendizaje_Probabilistico/001_Apren_Bayesiano.py:12-35 | on [0, 1], with parameters at least 1, the density is non-negative |
| BetaLearning.Pdf | 02_Probabilidad/04_Aprendizaje_Probabilistico/001_Apren_Bayesiano.py:12-35 | `beta_pdf_sin_scipy` vanishes at theta = 0 when a > 1 and at theta = 1 when b > 1 |
| BetaLearning.UniformPrior | 02_Probabilidad/04_Aprendizaje_Probabilistico/001_Apren_Bayesiano.py:38-72 | the prior Beta(1, 1) is 1 at every theta |
| BetaLearning.Conjugate | 02_Probabilidad/04_Aprendizaje_Probabilistico/001_Apren_Bayesiano.py:57-75 | the posterior density is the prior density times the likelihood, up to the ratio of the coefficients |
| BetaLearning.Successes | 02_Probabilidad/04_Aprendizaje_Probabilistico/001_Apren_Bayesiano.py:48 | the successes are at most the number of draws |
| BetaLearning.Posterior | 02_Probabilidad/04_Aprendizaje_Probabilistico/001_Apren_Bayesiano.py:57-58 | the posterior parameters grow from the prior and add up to the prior plus the number of draws |
| BetaLearning.PosteriorSequential | 02_Probabilidad/04_Aprendizaje_Probabilistico/001_Apren_Bayesiano.py:57-58 | updating on two batches in turn is updating on both at once |
| BetaLearning.SuccessesAppend | 02_Probabilidad/04_Aprendizaje_Probabilistico/001_Apren_Bayesiano.py:48 | the successes of two batches add |
| BetaLearning.Mean | 02_Probabilidad/04_Aprendizaje_Probabilistico/001_Apren_Bayesiano.py:78 | `media_posterior` times a + b gives back a; it is undefined (numpy's nan or inf, None here) exactly when a + b = 0, and lies strictly in (0, 1) for positive parameters |
| BetaLearning.Mediant | 02_Probabilidad/04_Aprendizaje_Probabilistico/001_Apren_Bayesiano.py:78 | the mediant of two ordered fractions lies between them |
| BetaLearning.MeanValue | 02_Probabilidad/04_Aprendizaje_Probabilistico/001_Apren_Bayesiano.py:57-78 | the posterior mean is (a + successes) / (a + b + draws) |
| BetaLearning.MeanBetween | 02_Probabilidad/04_Aprendizaje_Probabilistico/001_Apren_Bayesiano.py:57-78 | the posterior mean lies between the prior mean and the observed frequency |
| BetaLearning.MediantBetween | 02_Probabilidad/04_Aprendizaje_Probabilistico/001_Apren_Bayesiano.py:78 | either way round, the mediant lies between the two fractions |
| BetaLearning.ScriptPosterior | 02_Probabilidad/04_Aprendizaje_Probabilistico/001_Apren_Bayesiano.py:38-78 | with the prior Beta(1, 1) and 100 draws, a + b = 102 and the mean is (1 + successes) / 102 |
| Wrappers.Get | 02_Probabilidad/02_Razonamiento_Probabilistico/001_Red_Bayesiana.py:44-50 | `d[k]` is the stored value, or a KeyError exactly when k is not a key; the same lookup serves `obs_map[s]` in the hidden Markov scripts |
| Alarm.Tables | 02_Probabilidad/02_Razonamiento_Probabilistico/001_Red_Bayesiana.py:4-33 | P_B and every row of P_A_dado_B and P_J_dado_A have the keys Si and No, entries strictly between 0 and 1, and add up to 1 |
| Alarm.Row | 02_Probabilidad/02_Razonamiento_Probabilistico/001_Red_Bayesiana.py:4-33 | the tables at one value of the parent: keys Si and No, entries in (0, 1), rows adding up to 1 |
| Alarm.Joint | 02_Probabilidad/02_Razonamiento_Probabilistico/001_Red_Bayesiana.py:40-53 | `calcular_probabilidad_conjunta` is a KeyError exactly when a value is not Si or No, and otherwise lies strictly between 0 and 1 |
| Alarm.TableKeys | 02_Probabilidad/02_Razonamiento_Probabilistico/001_Red_Bayesiana.py:44-50 | the lookups of the joint succeed exactly for the values Si and No |
| Alarm.ProductInUnit | 02_Probabilidad/02_Razonamiento_Probabilistico/001_Red_Bayesiana.py:53 | a product of three probabilities strictly between 0 and 1 stays there |
| Alarm.JointExample | 02_Probabilidad/02_Razonamiento_Probabilistico/001_Red_Bayesiana.py:56-58 | P(B = Si, A = Si, J = Si) = 0.90 · 0.95 · 0.001 = 0.000855 |
| Alarm.JointSumsToOne | 02_Probabilidad/02_Razonamiento_Probabilistico/001_Red_Bayesiana.py:38-53 | the eight joint values are defined and add up to 1 |
| Alarm.OverAlarm | 02_Probabilidad/02_Razonamiento_Probabilistico/001_Red_Bayesiana.py:83-87 | the inner loop's running sum fails with a KeyError exactly when b or j is not Si or No |
| Alarm.Marginal | 02_Probabilidad/02_Razonamiento_Probabilistico/001_Red_Bayesiana.py:80-89 | P(B = b, J = j) is the sum of the two joint terms over A, positive and at most P(B = b); a KeyError exactly for an unknown value |
| Alarm.MarginalBound | 02_Probabilidad/02_Razonamiento_Probabilistico/001_Red_Bayesiana.py:80-89 | summing the alarm out leaves a positive value at most the prior of B |
| Alarm.Unnormalised | 02_Probabilidad/02_Razonamiento_Probabilistico/004_Inter_Enumeracion.py:33-42 | the nested loops fill Si and No with P(B = b, J = evidence), or fail with a KeyError for an unknown evidence value |
| Alarm.Posteriors | 02_Probabilidad/02_Razonamiento_Probabilistico/001_Red_Bayesiana.py:93-97 | the normaliser is the sum of the two terms, and the two posteriors lie in [0, 1] and add up to 1 |
| Alarm.Diagnose | 02_Probabilidad/02_Razonamiento_Probabilistico/001_Red_Bayesiana.py:71-97 | P(B, J = Si) = {Si: 0.0008575, No: 0.0584415}, normaliser 0.059299, and the posteriors form a distribution |
| Alarm.InferenceByEnumeration | 02_Probabilidad/02_Razonamiento_Probabilistico/004_Inter_Enumeracion.py:26-52 | `inferencia_por_enumeracion` returns the two posteriors, the normaliser P(J = evidence) and the unnormalised term for B = Si; a KeyError for an unknown evidence value |
| Alarm.AlarmGivenBlanket | 02_Probabilidad/02_Razonamiento_Probabilistico/003_Manto_Markov.py:46-66 | `inferir_a_dado_bj` returns P(A = Si \| B, J) strictly between 0 and 1 and the normaliser P(B, J); a KeyError for an unknown value |
| Alarm.BlanketComplement | 02_Probabilidad/02_Razonamiento_Probabilistico/003_Manto_Markov.py:86 | the printed 1 - p is P(A = No \| B, J) |
| Alarm.BlanketCancelsPrior | 02_Probabilidad/02_Razonamiento_Probabilistico/003_Manto_Markov.py:46-66 | the posterior depends only on the alarm's Markov blanket: the prior of B cancels out |
| Alarm.CommonFactor | 02_Probabilidad/02_Razonamiento_Probabilistico/003_Manto_Markov.py:61-64 | a common positive factor cancels in a normalised ratio |
| Alarm.BlanketExample | 02_Probabilidad/02_Razonamiento_Probabilistico/003_Manto_Markov.py:70-73 | with B = Si and J = No the alarm rang with probability 0.000095 / 0.0001425 = 2/3 |
| Elimination.Opposite | 02_Probabilidad/02_Razonamiento_Probabilistico/005_Elim_Variables.py:43 | the opposite letter differs from the given one and is Fuerte or Débil |
| Elimination.OppositeInvolutive | 02_Probabilidad/02_Razonamiento_Probabilistico/005_Elim_Variables.py:43 | the opposite of the opposite of Fuerte or Débil is itself |
| Elimination.CptValue | 02_Probabilidad/02_Razonamiento_Probabilistico/005_Elim_Variables.py:31-45 | `get_cpt_value`: the stored value when the key is present; for a missing pair key, one minus the opposite entry, or a KeyError when that is missing too; 0.0 for any other missing key |
| Elimination.FallbackRebuildsEntry | 02_Probabilidad/02_Razonamiento_Probabilistico/005_Elim_Variables.py:39-44 | in a binary table whose rows add up to 1, dropping one entry of a pair loses nothing |
| Elimination.TablesComplete | 02_Probabilidad/02_Razonamiento_Probabilistico/005_Elim_Variables.py:3-27 | every table has all its keys and every conditional row adds up to 1 |
| Elimination.GradeGiven | 02_Probabilidad/02_Razonamiento_Probabilistico/005_Elim_Variables.py:61-62 | the `.get` with its fallback returns the stored entry for grade A or B, and the entry for A for any other grade |
| Elimination.CptNumbers | 02_Probabilidad/02_Razonamiento_Probabilistico/005_Elim_Variables.py:4-15 | the numbers `get_cpt_value` returns for P(D), P(I) and P(L \| I) |
| Elimination.EliminateDifficulty | 02_Probabilidad/02_Razonamiento_Probabilistico/005_Elim_Variables.py:56-69 | T1(i) is the sum over D of P(G = g \| D, I = i) P(D) |
| Elimination.EliminateIntelligence | 02_Probabilidad/02_Razonamiento_Probabilistico/005_Elim_Variables.py:82-97 | T2(l) is the sum over I of P(L = l \| I) P(I) T1(I) |
| Elimination.Joint | 02_Probabilidad/02_Razonamiento_Probabilistico/005_Elim_Variables.py:3-27 | the full joint of the network is non-negative |
| Elimination.StepA | 02_Probabilidad/02_Razonamiento_Probabilistico/005_Elim_Variables.py:57-69 | the two sums of step A written out |
| Elimination.StepB | 02_Probabilidad/02_Razonamiento_Probabilistico/005_Elim_Variables.py:83-97 | the two sums of step B written out |
| Elimination.EnumeratedTerms | 02_Probabilidad/02_Razonamiento_Probabilistico/005_Elim_Variables.py:54-80 | the enumeration of P(L = l, G = g) as four joint terms |
| Elimination.EliminationIsEnumeration | 02_Probabilidad/02_Razonamiento_Probabilistico/005_Elim_Variables.py:52-97 | eliminating D and then I gives the sum of the full joint: T2(l) = P(L = l, G = g) |
| Elimination.Distribute | 02_Probabilidad/02_Razonamiento_Probabilistico/005_Elim_Variables.py:95 | step B's sum of products of step A's sums, multiplied out |
| Elimination.Posterior | 02_Probabilidad/02_Razonamiento_Probabilistico/005_Elim_Variables.py:108-109 | P(L = Fuerte \| G = g) is a ZeroDivisionError exactly when T2 adds up to 0, and otherwise lies in [0, 1] for non-negative T2 |
| Elimination.LetterGivenGrade | 02_Probabilidad/02_Razonamiento_Probabilistico/005_Elim_Variables.py:49-109 | the script computes T2 = P(L, G = g), the normaliser P(G = g) and the posterior |
| Elimination.NormaliserIsEvidence | 02_Probabilidad/02_Razonamiento_Probabilistico/005_Elim_Variables.py:108 | the normaliser T2(Fuerte) + T2(Débil) is P(G = g), the grade table weighted by the priors of D and I, and it is positive |
| Elimination.EvidenceSumsToOne | 02_Probabilidad/02_Razonamiento_Probabilistico/005_Elim_Variables.py:17-27 | P(G = A) + P(G = B) = 1 |
| Elimination.ScriptValues | 02_Probabilidad/02_Razonamiento_Probabilistico/005_Elim_Variables.py:73-102 | T1 = {Alta: 0.54, Baja: 0.23}, T2 = {Fuerte: 0.3231, Débil: 0.1239}, posterior 0.3231 / 0.447 |
| Vectors.Zeros | 02_Probabilidad/03_Razonamiento_Probabilistico_Tiempo/004_Delante_Atras.py:40 | `np.zeros(n)` has n entries, all 0 |
| Vectors.Ones | 02_Probabilidad/03_Razonamiento_Probabilistico_Tiempo/004_Delante_Atras.py:75 | `beta[T-1, :] = 1.0` fills n entries with 1 |
| Vectors.Hadamard | 02_Probabilidad/03_Razonamiento_Probabilistico_Tiempo/004_Delante_Atras.py:57 | the element-wise product keeps the length of its operands |
| Vectors.AddScaled | 02_Probabilidad/03_Razonamiento_Probabilistico_Tiempo/004_Delante_Atras.py:54 | adding a scaled row keeps the length |
| Vectors.VecMat | 02_Probabilidad/03_Razonamiento_Probabilistico_Tiempo/004_Delante_Atras.py:54 | `np.dot(v, A)` has one entry per column of A |
| Vectors.Column | 02_Probabilidad/03_Razonamiento_Probabilistico_Tiempo/004_Delante_Atras.py:44 | `B[:, k]` has one entry per row of B |
| Vectors.Divide | 02_Probabilidad/03_Razonamiento_Probabilistico_Tiempo/004_Delante_Atras.py:60 | dividing by a scalar keeps the length |
| Vectors.Normalise | 02_Probabilidad/03_Razonamiento_Probabilistico_Tiempo/004_Delante_Atras.py:108 | `v / np.sum(v)` keeps the length and adds up to 1 |
| Vectors.ArgMax | 02_Probabilidad/03_Razonamiento_Probabilistico_Tiempo/005_Mod_Oculto_Markov.py:57-66 | `np.argmax` is an index of a largest entry, and no earlier entry is as large |
| Vectors.SumDivide | 02_Probabilidad/03_Razonamiento_Probabilistico_Tiempo/004_Delante_Atras.py:60 | dividing every entry by s divides the sum by s |
| Vectors.SumAddScaled | 02_Probabilidad/03_Razonamiento_Probabilistico_Tiempo/004_Delante_Atras.py:54 | the sum of u + c·w is sum(u) + c·sum(w) |
| Vectors.SumZeros | 02_Probabilidad/03_Razonamiento_Probabilistico_Tiempo/004_Delante_Atras.py:40 | a row of zeros adds up to 0 |
| Vectors.VecMatKeepsSum | 02_Probabilidad/03_Razonamiento_Probabilistico_Tiempo/003_Fil_Suav_Pred_Exp.py:66 | `np.dot(v, A)` with a stochastic A keeps the total mass of v |
| Vectors.VecMatNonNegative | 02_Probabilidad/03_Razonamiento_Probabilistico_Tiempo/003_Fil_Suav_Pred_Exp.py:66 | non-negative weights of non-negative rows give a non-negative vector |
| Vectors.VecMatPositive | 02_Probabilidad/03_Razonamiento_Probabilistico_Tiempo/004_Delante_Atras.py:54 | positive weights of positive rows give a positive vector |
| Vectors.HadamardPositive | 02_Probabilidad/03_Razonamiento_Probabilistico_Tiempo/004_Delante_Atras.py:57 | the product of two positive vectors is positive |
| Vectors.SumPositive | 02_Probabilidad/03_Razonamiento_Probabilistico_Tiempo/004_Delante_Atras.py:60 | a non-empty positive vector has a positive sum |
| Vectors.SumNonNegative | 02_Probabilidad/03_Razonamiento_Probabilistico_Tiempo/004_Delante_Atras.py:60 | a non-negative vector has a non-negative sum |
| Vectors.NormalisePositive | 02_Probabilidad/03_Razonamiento_Probabilistico_Tiempo/004_Delante_Atras.py:60 | normalising a positive vector gives a positive vector |
| Vectors.NormaliseDistribution | 02_Probabilidad/03_Razonamiento_Probabilistico_Tiempo/004_Delante_Atras.py:108 | a vector that adds up to 1 is its own normalisation |
| Vectors.VecMatDivide | 02_Probabilidad/03_Razonamiento_Probabilistico_Tiempo/004_Delante_Atras.py:54 | dividing the weights by s divides `np.dot(v, A)` by s |
| Vectors.AddScaledDivide | 02_Probabilidad/03_Razonamiento_Probabilistico_Tiempo/004_Delante_Atras.py:54 | dividing u and c by s divides u + c·w by s |
| Vectors.HadamardDivide | 02_Probabilidad/03_Razonamiento_Probabilistico_Tiempo/004_Delante_Atras.py:57 | dividing one operand by s divides the element-wise product by s |
| Vectors.NormaliseDivide | 02_Probabilidad/03_Razonamiento_Probabilistico_Tiempo/004_Delante_Atras.py:60 | normalisation forgets a common non-zero factor |
| Vectors.HadamardOnes | 02_Probabilidad/03_Razonamiento_Probabilistico_Tiempo/004_Delante_Atras.py:105 | multiplying by a vector of ones changes nothing |
| Hmm.EncodeAll | 02_Probabilidad/03_Razonamiento_Probabilistico_Tiempo/005_Mod_Oculto_Markov.py:44-49 | the observations' columns in order, or a KeyError when one of them is unknown |
| Hmm.Encode | 02_Probabilidad/03_Razonamiento_Probabilistico_Tiempo/005_Mod_Oculto_Markov.py:35-49 | the decoder's lookups: an IndexError for an empty sequence (`obs_secuencia[0]`), a KeyError for an unknown observation, else one column per observation |
| Hmm.EncodeEmits | 02_Probabilidad/03_Razonamiento_Probabilistico_Tiempo/005_Mod_Oculto_Markov.py:9-26 | the model's map only names columns of B |
| Hmm.Trans | 02_Probabilidad/03_Razonamiento_Probabilistico_Tiempo/005_Mod_Oculto_Markov.py:53 | `delta[t-1, :] * A[:, j]` has one entry per predecessor |
| Hmm.PsiRow | 02_Probabilidad/03_Razonamiento_Probabilistico_Tiempo/005_Mod_Oculto_Markov.py:41-60 | every backpointer is a state of the model |
| Hmm.State | 02_Probabilidad/03_Razonamiento_Probabilistico_Tiempo/005_Mod_Oculto_Markov.py:63-70 | every decoded state is a state of the model |
| Hmm.DecodedPath | 02_Probabilidad/03_Razonamiento_Probabilistico_Tiempo/005_Mod_Oculto_Markov.py:63-70 | `secuencia_optima` has length T and holds the decoded state at every time |
| Hmm.Names | 02_Probabilidad/03_Razonamiento_Probabilistico_Tiempo/005_Mod_Oculto_Markov.py:73 | every name of the decoded sequence is a state name |
| Hmm.DeltaBoundsPaths | 02_Probabilidad/03_Razonamiento_Probabilistico_Tiempo/005_Mod_Oculto_Markov.py:45-59 | delta[t][j] bounds the probability of every path that ends in j at time t |
| Hmm.BoundStep | 02_Probabilidad/03_Razonamiento_Probabilistico_Tiempo/005_Mod_Oculto_Markov.py:52-59 | a bound on a path without its last state carries over to the path |
| Hmm.DeltaFirst | 02_Probabilidad/03_Razonamiento_Probabilistico_Tiempo/005_Mod_Oculto_Markov.py:45 | the first row of delta is Pi * B[:, e0] |
| Hmm.DeltaRow | 02_Probabilidad/03_Razonamiento_Probabilistico_Tiempo/005_Mod_Oculto_Markov.py:45-59 | each row of delta has one entry per state, and with non-negative Pi, A and B every entry is non-negative |
| Hmm.DeltaStep | 02_Probabilidad/03_Razonamiento_Probabilistico_Tiempo/005_Mod_Oculto_Markov.py:53-59 | delta[t, j] is B[j, e_t] times the maximum of `trans_probs` |
| Hmm.PsiEntry | 02_Probabilidad/03_Razonamiento_Probabilistico_Tiempo/005_Mod_Oculto_Markov.py:41-60 | psi is 0 at t = 0 and the first arg-max of `trans_probs` afterwards |
| Hmm.TransMax | 02_Probabilidad/03_Razonamiento_Probabilistico_Tiempo/005_Mod_Oculto_Markov.py:56-57 | the entry at the arg-max is the maximum |
| Hmm.LastState | 02_Probabilidad/03_Razonamiento_Probabilistico_Tiempo/005_Mod_Oculto_Markov.py:66 | the last decoded state is the first arg-max of the final delta row |
| Hmm.StateStep | 02_Probabilidad/03_Razonamiento_Probabilistico_Tiempo/005_Mod_Oculto_Markov.py:69-70 | the decoded state at t - 1 is the backpointer stored for the decoded state at t |
| Hmm.DecodedPathAttains | 02_Probabilidad/03_Razonamiento_Probabilistico_Tiempo/005_Mod_Oculto_Markov.py:45-70 | the decoded path attains delta at every time |
| Hmm.MostProbablePath | 02_Probabilidad/03_Razonamiento_Probabilistico_Tiempo/005_Mod_Oculto_Markov.py:31-74 | no state path of length T explains the observations better than the decoded one |
| Hmm.RowOf | 02_Probabilidad/03_Razonamiento_Probabilistico_Tiempo/005_Mod_Oculto_Markov.py:53 | `delta[t, :]` lists row t |
| Hmm.ViterbiTables | 02_Probabilidad/03_Razonamiento_Probabilistico_Tiempo/005_Mod_Oculto_Markov.py:38-60 | the initialisation and recursion fill delta and psi with the rows of the recurrence |
| Hmm.FillRow | 02_Probabilidad/03_Razonamiento_Probabilistico_Tiempo/005_Mod_Oculto_Markov.py:49-60 | one pass of the recursion loop writes row t of delta and psi and leaves the other rows alone |
| Hmm.Backtrack | 02_Probabilidad/03_Razonamiento_Probabilistico_Tiempo/005_Mod_Oculto_Markov.py:63-70 | the back-tracking loop yields the decoded path |
| Hmm.Viterbi | 02_Probabilidad/03_Razonamiento_Probabilistico_Tiempo/005_Mod_Oculto_Markov.py:31-74 | `viterbi_decodificacion` returns the names of the decoded path, or the lookup error |
| Filtering.Rescale | 02_Probabilidad/03_Razonamiento_Probabilistico_Tiempo/004_Delante_Atras.py:60 | `v /= np.sum(v)` fails exactly when the sum is 0; otherwise the entries add up to 1 and keep their proportions to v |
| Filtering.RescaleSome | 02_Probabilidad/03_Razonamiento_Probabilistico_Tiempo/004_Delante_Atras.py:60 | a non-zero sum rescales to the normalised vector |
| Filtering.RescaleDivide | 02_Probabilidad/03_Razonamiento_Probabilistico_Tiempo/004_Delante_Atras.py:60 | rescaling forgets a common non-zero factor |
| Filtering.ForwardStep | 02_Probabilidad/03_Razonamiento_Probabilistico_Tiempo/004_Delante_Atras.py:54-57 | the forward step has one entry per state |
| Filtering.FirstRow | 02_Probabilidad/03_Razonamiento_Probabilistico_Tiempo/004_Delante_Atras.py:44 | `Pi * B[:, e0]` has one entry per state |
| Filtering.Alpha | 02_Probabilidad/03_Razonamiento_Probabilistico_Tiempo/004_Delante_Atras.py:42-60 | every normalised row of alpha has one entry per state and adds up to 1 |
| Filtering.AlphaFirst | 02_Probabilidad/03_Razonamiento_Probabilistico_Tiempo/004_Delante_Atras.py:43-47 | row 0 is `Pi * B[:, e0]`, normalised only by `forward_pass` |
| Filtering.AlphaStep | 02_Probabilidad/03_Razonamiento_Probabilistico_Tiempo/004_Delante_Atras.py:50-60 | row t is the normalised forward step from row t - 1, and a failed row makes the next one fail |
| Filtering.AlphaNoneStays | 02_Probabilidad/03_Razonamiento_Probabilistico_Tiempo/004_Delante_Atras.py:50-60 | once a row cannot be normalised, no later row can |
| Filtering.FiltersAgree | 02_Probabilidad/03_Razonamiento_Probabilistico_Tiempo/003_Fil_Suav_Pred_Exp.py:39-52 | from t = 1 on, `filtrar_forward` (row 0 unnormalised) and `forward_pass` (row 0 normalised) compute the same rows |
| Filtering.ForwardStepDivide | 02_Probabilidad/03_Razonamiento_Probabilistico_Tiempo/004_Delante_Atras.py:54-57 | dividing the previous row by s divides the next unnormalised row by s |
| Filtering.PositiveColumn | 02_Probabilidad/03_Razonamiento_Probabilistico_Tiempo/004_Delante_Atras.py:44-57 | a column of a positive emission matrix is positive |
| Filtering.AlphaPositive | 02_Probabilidad/03_Razonamiento_Probabilistico_Tiempo/004_Delante_Atras.py:42-60 | with no zero probability in the model every row of alpha can be normalised and is positive |
| Filtering.BackStep | 02_Probabilidad/03_Razonamiento_Probabilistico_Tiempo/004_Delante_Atras.py:81-87 | the backward step has one entry per state |
| Filtering.Beta | 02_Probabilidad/03_Razonamiento_Probabilistico_Tiempo/004_Delante_Atras.py:70-92 | row T - 1 of beta is all ones and every earlier normalised row adds up to 1 |
| Filtering.BetaLast | 02_Probabilidad/03_Razonamiento_Probabilistico_Tiempo/004_Delante_Atras.py:75 | row T - 1 of beta is all ones |
| Filtering.BetaStep | 02_Probabilidad/03_Razonamiento_Probabilistico_Tiempo/004_Delante_Atras.py:78-90 | row t is the normalised backward step from row t + 1 with the observation at t + 1, and a failed row makes the earlier one fail |
| Filtering.BetaNoneStays | 02_Probabilidad/03_Razonamiento_Probabilistico_Tiempo/004_Delante_Atras.py:78-90 | once a row of beta cannot be normalised, no earlier row can |
| Filtering.BetaPositive | 02_Probabilidad/03_Razonamiento_Probabilistico_Tiempo/004_Delante_Atras.py:70-92 | with no zero probability in the model every row of beta can be normalised and is positive |
| Filtering.Smooth | 02_Probabilidad/03_Razonamiento_Probabilistico_Tiempo/004_Delante_Atras.py:98-110 | an IndexError exactly when k is outside the rows (negative k counts from the end); otherwise a vector adding up to 1 whose entry i times the sum of alpha[k]·beta[k] is alpha[k][i]·beta[k][i], that is the normalised product, failing exactly when that product adds up to 0 |
| Filtering.SmoothAtLast | 02_Probabilidad/03_Razonamiento_Probabilistico_Tiempo/004_Delante_Atras.py:98-110 | smoothing at the last step gives back a last alpha row that adds up to 1 |
| Filtering.Propagate | 02_Probabilidad/03_Razonamiento_Probabilistico_Tiempo/003_Fil_Suav_Pred_Exp.py:57-68 | the belief k steps ahead has one entry per state |
| Filtering.PropagateKeepsSum | 02_Probabilidad/03_Razonamiento_Probabilistico_Tiempo/003_Fil_Suav_Pred_Exp.py:64-66 | with a stochastic A the predicted belief keeps its total mass |
| Filtering.PropagateNonNegative | 02_Probabilidad/03_Razonamiento_Probabilistico_Tiempo/003_Fil_Suav_Pred_Exp.py:64-66 | with non-negative transitions the predicted belief stays non-negative |
| Filtering.PropagateCompose | 02_Probabilidad/03_Razonamiento_Probabilistico_Tiempo/003_Fil_Suav_Pred_Exp.py:64-66 | predicting j steps and then k more is predicting j + k steps |
| Filtering.Predict | 02_Probabilidad/03_Razonamiento_Probabilistico_Tiempo/003_Fil_Suav_Pred_Exp.py:57-68 | `predecir` returns P unchanged for k <= 0, a ValueError when P does not match A, else the belief k steps ahead |
| Filtering.SetRow | 02_Probabilidad/03_Razonamiento_Probabilistico_Tiempo/004_Delante_Atras.py:44-57 | `g[t, :] = v` overwrites row t and keeps every other row |
| Filtering.NormaliseRow | 02_Probabilidad/03_Razonamiento_Probabilistico_Tiempo/004_Delante_Atras.py:47-60 | `g[t, :] /= np.sum(g[t, :])` rescales row t, reports a zero sum, and keeps every other row |
| Filtering.Rows | 02_Probabilidad/03_Razonamiento_Probabilistico_Tiempo/004_Delante_Atras.py:62 | the rows of the returned table, one per time step |
| Filtering.ForwardTable | 02_Probabilidad/03_Razonamiento_Probabilistico_Tiempo/004_Delante_Atras.py:39-60 | the forward loop fills every row of alpha that the recurrence can normalise |
| Filtering.FilterForward | 02_Probabilidad/03_Razonamiento_Probabilistico_Tiempo/003_Fil_Suav_Pred_Exp.py:31-54 | `filtrar_forward` returns the last row of alpha, or the lookup error of an empty or unknown observation |
| Filtering.ForwardPass | 02_Probabilidad/03_Razonamiento_Probabilistico_Tiempo/004_Delante_Atras.py:37-62 | `forward_pass` returns every row of alpha, or the lookup error |
| Filtering.FillBackRow | 02_Probabilidad/03_Razonamiento_Probabilistico_Tiempo/004_Delante_Atras.py:79-87 | one pass of the backward loop writes row t from row t + 1 and keeps every other row |
| Filtering.BackwardTable | 02_Probabilidad/03_Razonamiento_Probabilistico_Tiempo/004_Delante_Atras.py:70-90 | the backward loop fills every row of beta that the recurrence can normalise |
| Filtering.BackwardPass | 02_Probabilidad/03_Razonamiento_Probabilistico_Tiempo/004_Delante_Atras.py:68-92 | `backward_pass` returns every row of beta; it fails with an IndexError on an empty run and a KeyError on an unknown observation after the first |
| Filtering.SmoothedLastIsFiltered | 02_Probabilidad/03_Razonamiento_Probabilistico_Tiempo/004_Delante_Atras.py:98-110 | smoothing the last time step of the two passes gives back the last forward row |
| HmmModels.MaintenanceModel | 02_Probabilidad/03_Razonamiento_Probabilistico_Tiempo/004_Delante_Atras.py:5-25 | the machine-maintenance model is well formed, has no zero probability, and A and Pi are distributions |
| HmmModels.MarketModel | 02_Probabilidad/03_Razonamiento_Probabilistico_Tiempo/005_Mod_Oculto_Markov.py:4-29 | the market-volatility model is well formed, has no zero probability, and A and Pi are distributions |
| HmmModels.DnaModel | 02_Probabilidad/04_Aprendizaje_Probabilistico/005_Mod_Oculto_Markov.py:5-32 | the DNA model is well formed, has no zero probability, and A and Pi are distributions |
| HmmModels.MaintenanceRowsFinite | 02_Probabilidad/03_Razonamiento_Probabilistico_Tiempo/004_Delante_Atras.py:37-92 | in the maintenance model every row of alpha and beta can be normalised |
| HmmModels.DnaAlphabet | 02_Probabilidad/04_Aprendizaje_Probabilistico/005_Mod_Oculto_Markov.py:10-11 | the DNA decoder accepts exactly the non-empty sequences over A, C, G and T |
| Speech.PhonemesWellFormed | 02_Probabilidad/03_Razonamiento_Probabilistico_Tiempo/008_Reconocimiento_Habla.py:6-38 | the phoneme model is well formed and has no negative probability |
| Speech.Transition | 02_Probabilidad/03_Razonamiento_Probabilistico_Tiempo/008_Reconocimiento_Habla.py:22-27 | each phoneme moves to the next with probability 1, and nothing else has non-zero probability |
| Speech.SupportArgMax | 02_Probabilidad/03_Razonamiento_Probabilistico_Tiempo/008_Reconocimiento_Habla.py:62-69 | a non-negative vector that is zero away from c has its first maximum at 0 or c |
| Speech.TransSupport | 02_Probabilidad/03_Razonamiento_Probabilistico_Tiempo/008_Reconocimiento_Habla.py:59 | only phoneme j - 1 can move into phoneme j, and only when it is the one with mass |
| Speech.DeltaShape | 02_Probabilidad/03_Razonamiento_Probabilistico_Tiempo/008_Reconocimiento_Habla.py:52-64 | row t of delta is non-negative and zero away from phoneme t |
| Speech.StateShape | 02_Probabilidad/03_Razonamiento_Probabilistico_Tiempo/008_Reconocimiento_Habla.py:68-73 | the decoded phoneme at time t is T/L or phoneme t |
| Speech.Decode | 02_Probabilidad/03_Razonamiento_Probabilistico_Tiempo/008_Reconocimiento_Habla.py:42-95 | `viterbi_decodificacion_simple` returns the decided word and `np.max(delta[T-1, :])`, or the lookup error |
| Speech.DecodedWord | 02_Probabilidad/03_Razonamiento_Probabilistico_Tiempo/008_Reconocimiento_Habla.py:78-93 | the decoded path starts in T/L, so the error answer never comes back: the word is Toma exactly when the first sound is Fuerte, Loma otherwise |
| Speech.Word | 02_Probabilidad/03_Razonamiento_Probabilistico_Tiempo/008_Reconocimiento_Habla.py:78-93 | the answer is Toma exactly for T/L with a Fuerte first sound, Loma exactly for T/L with any other sound, and the error text exactly when the first phoneme is not T/L |
| Speech.ScoreVanishes | 02_Probabilidad/03_Razonamiento_Probabilistico_Tiempo/008_Reconocimiento_Habla.py:95 | a recording of more than four sounds leaves the last row of delta, and the returned score, at 0 |

## Left out

- Floating point: every probability is an exact real. IEEE rounding and underflow are not modelled, and neither is the underflow that motivates the normalisation in the forward and backward passes. A row that adds up to zero, which numpy would turn into NaN, is modelled as `None`.
- numpy broadcasting: vectors are combined only at equal lengths, as the scripts use them.
- Randomness is an input. The bandit's uniform draws are a parameter of `Bandit.Pull` and `Bandit.Agent.Run`. The perceptron's initial weights are a parameter of `PerceptronTraining.TrainNeuron`. The Bernoulli draws of 001_Apren_Bayesiano.py are a `seq<bool>`. The seeded data simulations are not modelled.
- Printing, plotting and file or image I/O are not modelled. Nor is the OpenCV part of 004_Texturas.py (reading the photograph, blending it with the texture, showing it). The texture's height and width are parameters.
- Retrieval.Cosine: the two Euclidean norms are parameters tied to the vectors by `IsNorm`, because Dafny's reals have no square root. The IDF weights use `np.log` and are not modelled.
- NaiveBayes.Score: the script adds logarithms of the prior and the smoothed likelihoods. The model multiplies them instead, since the logarithm is increasing and preserves the comparison of the two classes. The log values themselves are not modelled.
- Sigmoid and tanh of 002_Func_Activacion.py are transcendental and are not modelled; ReLU and its derivative are.
- BetaLearning.Pow: `np.power` only for integer exponents, which is how the script calls it with integer parameters; array arguments of theta are modelled one value at a time.
- BetaLearning.Pdf: the density at theta = 0 with a < 1, or at theta = 1 with b < 1, is infinite in numpy. These inputs are excluded by its requires clause.
- Text.Lower: lowers only the upper-case letters of ASCII and Latin-1. Python's full Unicode case mapping is not modelled.
- Alarm.InferenceByEnumeration: the `query` argument is accepted and ignored, as in the script. The unused `estados_A` list plays no part either.
- Hamming.ClassifyHamming: a length mismatch is a ValueError. numpy would broadcast a one-element vector against a longer one instead.
- Speech.Decode: the decoded word is modelled, but the scores `prob_toma` and `prob_loma`, which the script computes and never uses, are not.
- The scripts named in the repository but outside this model are sampling (006-008 of 02_Razonamiento_Probabilistico, 002_Hip_Markov.py, 007_Filtro_Particulas.py), iterative numerics (EM, Kalman, multilayer networks and back-propagation, self-organising maps, k-means/kNN, SVM, Gaussian densities, stationary processes), the straight-line scripts that only combine constants, and the rest of 07_Percepcion. Their behaviour is random, transcendental, or a foreign library call.
