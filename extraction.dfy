/** Greedy longest-match named-entity extraction against a lexicon (005_Extraccion_Info.py). */
module EntityExtraction {
  import opened Text

  /** DICCIONARIO_ENTIDADES: lower-case names and their tags. */
  const Lexicon: map<string, string> := map[
    "tim cook" := "PER", "elon musk" := "PER", "jeff bezos" := "PER",
    "apple" := "ORG", "tesla" := "ORG", "spacex" := "ORG", "amazon" := "ORG",
    "cupertino" := "LOC", "california" := "LOC", "seattle" := "LOC"
  ]

  /** `tokenizar_oracion`: the whitespace pieces of the lower-cased sentence, punctuation kept. */
  function TokenizeSentence(sentence: string): (tokens: seq<string>)
    ensures AllWords(tokens)
    ensures forall k :: 0 <= k < |tokens| ==> IsLower(tokens[k])
  {
    SplitLower(Lower(sentence));
    Split(Lower(sentence))
  }

  /** One extracted entity: where it starts, how many tokens it spans, its text and its tag. */
  datatype Match = Match(start: nat, len: nat, text: string, tag: string)

  /** The space-join of `n` tokens starting at `i`. */
  function Gram(tokens: seq<string>, i: nat, n: nat): string
    requires i + n <= |tokens|
  {
    Join(" ", tokens[i..i + n])
  }

  /** The scan of `extraer_entidades` from position `i`: trigram, then bigram, then unigram. */
  function Scan(tokens: seq<string>, dict: map<string, string>, i: nat): seq<Match>
    decreases |tokens| - i
  {
    if i >= |tokens| then []
    else if i + 2 < |tokens| && Gram(tokens, i, 3) in dict then
      [Match(i, 3, Gram(tokens, i, 3), dict[Gram(tokens, i, 3)])] + Scan(tokens, dict, i + 3)
    else if i + 1 < |tokens| && Gram(tokens, i, 2) in dict then
      [Match(i, 2, Gram(tokens, i, 2), dict[Gram(tokens, i, 2)])] + Scan(tokens, dict, i + 2)
    else if tokens[i] in dict then
      [Match(i, 1, tokens[i], dict[tokens[i]])] + Scan(tokens, dict, i + 1)
    else
      Scan(tokens, dict, i + 1)
  }

  /** The `(entity, tag)` pairs the function returns. */
  function Pairs(ms: seq<Match>): seq<(string, string)> {
    if ms == [] then [] else [(ms[0].text, ms[0].tag)] + Pairs(ms[1..])
  }

  /** One turn of the scan, as pairs: the longest entry at i, then the rest. */
  lemma ScanPairs(tokens: seq<string>, dict: map<string, string>, i: nat)
    requires i <= |tokens|
    ensures Pairs(Scan(tokens, dict, i)) ==
      if i == |tokens| then []
      else if i + 2 < |tokens| && Gram(tokens, i, 3) in dict then
        [(Gram(tokens, i, 3), dict[Gram(tokens, i, 3)])] + Pairs(Scan(tokens, dict, i + 3))
      else if i + 1 < |tokens| && Gram(tokens, i, 2) in dict then
        [(Gram(tokens, i, 2), dict[Gram(tokens, i, 2)])] + Pairs(Scan(tokens, dict, i + 2))
      else if tokens[i] in dict then
        [(tokens[i], dict[tokens[i]])] + Pairs(Scan(tokens, dict, i + 1))
      else Pairs(Scan(tokens, dict, i + 1))
  {
    var ms := Scan(tokens, dict, i);
    if ms != [] {
      assert Pairs(ms) == [(ms[0].text, ms[0].tag)] + Pairs(ms[1..]);
    }
  }

  /** `extraer_entidades(oracion, diccionario)`. */
  method ExtractEntities(sentence: string, dict: map<string, string>) returns (found: seq<(string, string)>)
    ensures found == Pairs(Scan(TokenizeSentence(sentence), dict, 0))
  {
    hide Pairs, Scan, Gram;
    var tokens := TokenizeSentence(sentence);
    found := [];
    var i := 0;
    while i < |tokens|
      invariant i <= |tokens|
      invariant Pairs(Scan(tokens, dict, 0)) == found + Pairs(Scan(tokens, dict, i))
      decreases |tokens| - i
    {
      ScanPairs(tokens, dict, i);
      if i + 2 < |tokens| {
        var trigram := Gram(tokens, i, 3);
        if trigram in dict {
          found := found + [(trigram, dict[trigram])];
          i := i + 3;
          continue;
        }
      }
      if i + 1 < |tokens| {
        var bigram := Gram(tokens, i, 2);
        if bigram in dict {
          found := found + [(bigram, dict[bigram])];
          i := i + 2;
          continue;
        }
      }
      var unigram := tokens[i];
      if unigram in dict {
        found := found + [(unigram, dict[unigram])];
      }
      i := i + 1;
    }
    ScanPairs(tokens, dict, i);
  }

  /** Every match is a lexicon entry with its own tag, the join of 1 to 3 consecutive tokens
      at or after `i`; there are at most as many matches as tokens scanned. */
  lemma {:induction false} ScanSound(tokens: seq<string>, dict: map<string, string>, i: nat)
    requires i <= |tokens|
    ensures |Scan(tokens, dict, i)| <= |tokens| - i
    ensures forall m :: m in Scan(tokens, dict, i) ==>
      && 1 <= m.len <= 3 && i <= m.start && m.start + m.len <= |tokens|
      && m.text == Gram(tokens, m.start, m.len)
      && m.text in dict && dict[m.text] == m.tag
    decreases |tokens| - i
  {
    if i < |tokens| {
      ScanSound(tokens, dict, i + 1);
      if i + 2 < |tokens| { ScanSound(tokens, dict, i + 3); }
      if i + 1 < |tokens| { ScanSound(tokens, dict, i + 2); }
      assert Join(" ", tokens[i..i + 1]) == tokens[i];
    }
  }

  /** Matches never overlap and come in left-to-right order. */
  lemma {:induction false} ScanOrdered(tokens: seq<string>, dict: map<string, string>, i: nat)
    ensures forall a, b :: 0 <= a < b < |Scan(tokens, dict, i)| ==>
      Scan(tokens, dict, i)[a].start + Scan(tokens, dict, i)[a].len <= Scan(tokens, dict, i)[b].start
    decreases |tokens| - i
  {
    if i < |tokens| {
      var ms := Scan(tokens, dict, i);
      if i + 2 < |tokens| && Gram(tokens, i, 3) in dict {
        ScanOrdered(tokens, dict, i + 3);
        ScanSound(tokens, dict, i + 3);
        assert forall b :: 1 <= b < |ms| ==> ms[b] in Scan(tokens, dict, i + 3);
      } else if i + 1 < |tokens| && Gram(tokens, i, 2) in dict {
        ScanOrdered(tokens, dict, i + 2);
        ScanSound(tokens, dict, i + 2);
        assert forall b :: 1 <= b < |ms| ==> ms[b] in Scan(tokens, dict, i + 2);
      } else {
        ScanOrdered(tokens, dict, i + 1);
        ScanSound(tokens, dict, i + 1);
        if tokens[i] in dict {
          assert forall b :: 1 <= b < |ms| ==> ms[b] in Scan(tokens, dict, i + 1);
        }
      }
    }
  }

  /** Longest match first: a bigram match means no trigram entry starts there, and a unigram
      match means neither a trigram nor a bigram entry starts there. */
  lemma {:induction false} ScanGreedy(tokens: seq<string>, dict: map<string, string>, i: nat)
    ensures forall m :: m in Scan(tokens, dict, i) && m.start + m.len <= |tokens| ==>
      && (m.len < 3 && m.start + 2 < |tokens| ==> Gram(tokens, m.start, 3) !in dict)
      && (m.len < 2 && m.start + 1 < |tokens| ==> Gram(tokens, m.start, 2) !in dict)
    decreases |tokens| - i
  {
    if i < |tokens| {
      ScanGreedy(tokens, dict, i + 1);
      if i + 2 < |tokens| { ScanGreedy(tokens, dict, i + 3); }
      if i + 1 < |tokens| { ScanGreedy(tokens, dict, i + 2); }
    }
  }

  predicate Covered(ms: seq<Match>, p: nat) {
    exists m :: m in ms && m.start <= p < m.start + m.len
  }

  /** Nothing is missed: at a position the scan covers with no match, no lexicon entry of
      one, two or three tokens starts. */
  lemma {:induction false} ScanComplete(tokens: seq<string>, dict: map<string, string>, i: nat, p: nat)
    requires i <= p < |tokens|
    requires !Covered(Scan(tokens, dict, i), p)
    ensures tokens[p] !in dict
    ensures p + 1 < |tokens| ==> Gram(tokens, p, 2) !in dict
    ensures p + 2 < |tokens| ==> Gram(tokens, p, 3) !in dict
    decreases |tokens| - i
  {
    var ms := Scan(tokens, dict, i);
    if i + 2 < |tokens| && Gram(tokens, i, 3) in dict {
      assert ms[0] in ms;
      ScanComplete(tokens, dict, i + 3, p);
    } else if i + 1 < |tokens| && Gram(tokens, i, 2) in dict {
      assert ms[0] in ms;
      ScanComplete(tokens, dict, i + 2, p);
    } else if tokens[i] in dict {
      assert ms[0] in ms;
      ScanComplete(tokens, dict, i + 1, p);
    } else if p > i {
      ScanComplete(tokens, dict, i + 1, p);
    } else {
      assert Join(" ", tokens[i..i + 1]) == tokens[i];
    }
  }

  /** A sentence without tokens yields no entities. */
  lemma EmptySentence(sentence: string)
    requires forall i :: 0 <= i < |sentence| ==> IsSpace(sentence[i])
    ensures Pairs(Scan(TokenizeSentence(sentence), Lexicon, 0)) == []
  {
    SplitKeepsNonSpace(Lower(sentence));
    AllSpaceHasNoTokens(Lower(sentence));
  }

  lemma {:induction false} AllSpaceHasNoTokens(s: string)
    requires forall i :: 0 <= i < |s| ==> IsSpace(s[i])
    ensures Split(s) == []
    decreases |s|
  {
    if s != [] {
      AllSpaceHasNoTokens(s[1..]);
    }
  }

  lemma GramTwo(tokens: seq<string>, i: nat)
    requires i + 2 <= |tokens|
    ensures Gram(tokens, i, 2) == tokens[i] + " " + tokens[i + 1]
  {
    var ws := tokens[i..i + 2];
    assert ws[1..] == [tokens[i + 1]];
    assert Join(" ", ws[1..]) == tokens[i + 1];
  }

  lemma GramThree(tokens: seq<string>, i: nat)
    requires i + 3 <= |tokens|
    ensures Gram(tokens, i, 3) == tokens[i] + " " + tokens[i + 1] + " " + tokens[i + 2]
  {
    assert tokens[i..i + 3][1..] == tokens[i + 1..i + 3];
    GramTwo(tokens, i + 1);
  }

  /** TEXTO_NO_ESTRUCTURADO, written as its words joined by single spaces. */
  const SampleWords: seq<string> :=
    ["Tim", "Cook,", "el", "CEO", "de", "Apple,", "visitó", "la", "sede", "de", "Amazon", "en", "Seattle."]

  const SampleText: string := Join(" ", SampleWords)

  /** Its tokens: lower-cased, with the punctuation still attached. */
  const SampleTokens: seq<string> :=
    ["tim", "cook,", "el", "ceo", "de", "apple,", "visitó", "la", "sede", "de", "amazon", "en", "seattle."]

  /** `tokenizar_oracion(TEXTO_NO_ESTRUCTURADO)`. */
  lemma SampleTokenized()
    ensures TokenizeSentence(SampleText) == SampleTokens
  {
    forall k | 0 <= k < |SampleWords|
      ensures Lower(SampleWords[k]) == SampleTokens[k]
    {
      LowerSampleWord(k);
    }
    LowerJoin(SampleWords, SampleTokens);
    SampleTokensAreWords();
    hide Lower, Split, Join;
    SplitJoin(SampleTokens);
  }

  lemma SampleTokensAreWords()
    ensures AllWords(SampleTokens)
  {
  }

  lemma LowerSampleWord(k: nat)
    requires k < |SampleWords|
    ensures Lower(SampleWords[k]) == SampleTokens[k]
  {
    if k in {0, 1, 3} {
      LowerFirstWords(k);
    } else if k in {5, 10, 12} {
      LowerLastWords(k);
    } else {
      LowerPlainWords(k);
    }
  }

  lemma LowerPlainWords(k: nat)
    requires k < |SampleWords| && k !in {0, 1, 3, 5, 10, 12}
    ensures Lower(SampleWords[k]) == SampleTokens[k]
  {
    LowerOfLower(SampleWords[k]);
  }

  lemma LowerFirstWords(k: nat)
    requires k in {0, 1, 3}
    ensures Lower(SampleWords[k]) == SampleTokens[k]
  {
    hide Lower;
    if k == 0 {
      LowerCapital('T', "im");
      assert SampleWords[k] == ['T'] + "im";
    } else if k == 1 {
      LowerCapital('C', "ook,");
      assert SampleWords[k] == ['C'] + "ook,";
    } else {
      LowerCapital('O', "");
      LowerCapital('E', "o");
      LowerCapital('C', "eo");
      assert SampleWords[k] == ['C'] + (['E'] + (['O'] + ""));
    }
  }

  lemma LowerLastWords(k: nat)
    requires k in {5, 10, 12}
    ensures Lower(SampleWords[k]) == SampleTokens[k]
  {
    hide Lower;
    if k == 5 {
      LowerCapital('A', "pple,");
      assert SampleWords[k] == ['A'] + "pple,";
    } else if k == 10 {
      LowerCapital('A', "mazon");
      assert SampleWords[k] == ['A'] + "mazon";
    } else {
      LowerCapital('S', "eattle.");
      assert SampleWords[k] == ['S'] + "eattle.";
    }
  }

  /** Length, first and third character of every lexicon entry: a string of another shape is
      not an entry. */
  const KeyShapes: set<(int, char, char)> := {
    (5, 'a', 'p'), (5, 't', 's'), (6, 'a', 'a'), (6, 's', 'a'), (7, 's', 'a'),
    (8, 't', 'm'), (9, 'c', 'p'), (9, 'e', 'o'), (10, 'c', 'l'), (10, 'j', 'f')}

  predicate Unlisted(s: string) {
    |s| < 5 || |s| > 10 || (|s|, s[0], s[2]) !in KeyShapes
  }

  lemma UnlistedNotKey(s: string)
    requires Unlisted(s)
    ensures s !in Lexicon
  {
  }

  /** No entry of one, two or three tokens starts at i, so the scan moves on by one. */
  lemma NoEntityAt(t: seq<string>, i: nat)
    requires i < |t| && Unlisted(t[i])
    requires i + 1 < |t| ==> Unlisted(t[i] + " " + t[i + 1])
    requires i + 2 < |t| ==> Unlisted(t[i] + " " + t[i + 1] + " " + t[i + 2])
    ensures Scan(t, Lexicon, i) == Scan(t, Lexicon, i + 1)
  {
    UnlistedNotKey(t[i]);
    if i + 1 < |t| {
      GramTwo(t, i);
      UnlistedNotKey(t[i] + " " + t[i + 1]);
    }
    if i + 2 < |t| {
      GramThree(t, i);
      UnlistedNotKey(t[i] + " " + t[i + 1] + " " + t[i + 2]);
    }
  }

  /** The token at i is an entry and no longer entry starts there: a one-token match. */
  lemma UnigramAt(t: seq<string>, i: nat)
    requires i < |t| && t[i] in Lexicon
    requires i + 1 < |t| ==> Unlisted(t[i] + " " + t[i + 1])
    requires i + 2 < |t| ==> Unlisted(t[i] + " " + t[i + 1] + " " + t[i + 2])
    ensures Scan(t, Lexicon, i) == [Match(i, 1, t[i], Lexicon[t[i]])] + Scan(t, Lexicon, i + 1)
  {
    if i + 1 < |t| {
      GramTwo(t, i);
      UnlistedNotKey(t[i] + " " + t[i + 1]);
    }
    if i + 2 < |t| {
      GramThree(t, i);
      UnlistedNotKey(t[i] + " " + t[i + 1] + " " + t[i + 2]);
    }
  }

  lemma SampleHead()
    ensures Scan(SampleTokens, Lexicon, 0) == Scan(SampleTokens, Lexicon, 4)
  {
    var t := SampleTokens;
    hide Scan;
    NoEntityAt(t, 3);
    NoEntityAt(t, 2);
    NoEntityAt(t, 1);
    NoEntityAt(t, 0);
  }

  lemma SampleMiddle()
    ensures Scan(SampleTokens, Lexicon, 4) == Scan(SampleTokens, Lexicon, 8)
  {
    var t := SampleTokens;
    hide Scan;
    NoEntityAt(t, 7);
    NoEntityAt(t, 6);
    NoEntityAt(t, 5);
    NoEntityAt(t, 4);
  }

  lemma SampleTail()
    ensures Scan(SampleTokens, Lexicon, 8) == Scan(SampleTokens, Lexicon, 10)
  {
    var t := SampleTokens;
    hide Scan;
    NoEntityAt(t, 9);
    NoEntityAt(t, 8);
  }

  lemma SampleEnd()
    ensures Scan(SampleTokens, Lexicon, 10) == [Match(10, 1, "amazon", "ORG")]
  {
    var t := SampleTokens;
    assert Scan(t, Lexicon, 13) == [];
    hide Scan;
    NoEntityAt(t, 12);
    NoEntityAt(t, 11);
    UnigramAt(t, 10);
  }

  /** The script's result on TEXTO_NO_ESTRUCTURADO is Amazon alone: the comma left on "cook,"
      and "apple," and the full stop on "seattle." keep the other names out of the lexicon. */
  lemma SampleEntities()
    ensures Pairs(Scan(TokenizeSentence(SampleText), Lexicon, 0)) == [("amazon", "ORG")]
  {
    SampleTokenized();
    hide Scan, TokenizeSentence;
    SampleHead();
    SampleMiddle();
    SampleTail();
    SampleEnd();
    var ms := [Match(10, 1, "amazon", "ORG")];
    assert Pairs(ms) == [("amazon", "ORG")] + Pairs(ms[1..]);
  }
}
