/** The word recogniser of 008_Reconocimiento_Habla.py: a four-phoneme left-to-right model
    (T/L, o, m, a) decoded with Viterbi, then a decision between "Toma" and "Loma" taken on the
    first decoded phoneme and the first sound. */
module Speech {
  import opened Wrappers
  import opened Reals
  import opened Vectors
  import opened Hmm

  /** ESTADOS_HMM, obs_map, A, B and PI: the process always starts in T/L, each phoneme moves to
      the next one, and the last phoneme has nowhere to go. */
  const Phonemes: Model := Model(
    ["T/L", "o", "m", "a"],
    map["Fuerte" := 0, "Suave" := 1],
    [[0.0, 1.0, 0.0, 0.0], [0.0, 0.0, 1.0, 0.0], [0.0, 0.0, 0.0, 1.0], [0.0, 0.0, 0.0, 0.0]],
    [[0.8, 0.2], [0.5, 0.5], [0.4, 0.6], [0.3, 0.7]],
    [1.0, 0.0, 0.0, 0.0])

  /** The answer of the branch that expects never to run. */
  const ErrorWord: string := "ERROR: No inicio en T/L"

  /** The decision on the first decoded phoneme and the first sound. */
  function Word(first: string, sound: string): (w: string)
    ensures w == "Toma" <==> first == "T/L" && sound == "Fuerte"
    ensures w == "Loma" <==> first == "T/L" && sound != "Fuerte"
    ensures w == ErrorWord <==> first != "T/L"
  {
    if first == "T/L" then (if sound == "Fuerte" then "Toma" else "Loma") else ErrorWord
  }

  lemma PhonemesWellFormed()
    ensures WellFormed(Phonemes) && NonNegativeModel(Phonemes)
  {
  }

  /** Column j of A has a single non-zero entry, 1, at row j - 1. */
  lemma Transition(i: nat, j: nat)
    requires i < 4 && j < 4
    ensures Phonemes.a[i][j] == if j == i + 1 then 1.0 else 0.0
  {
    if i == 0 {
    } else if i == 1 {
    } else if i == 2 {
    } else {
    }
  }

  /** A non-negative vector that is zero away from index c has its first maximum at 0 or c. */
  lemma SupportArgMax(s: seq<real>, c: int)
    requires s != [] && NonNegative(s)
    requires forall i :: 0 <= i < |s| && i != c ==> s[i] == 0.0
    ensures ArgMax(s) == 0 || ArgMax(s) == c
  {
  }

  /** The moves into phoneme j from a non-negative row that is zero away from c: only phoneme
      j - 1 can contribute, and nothing at all unless j == c + 1. */
  lemma TransSupport(prev: seq<real>, c: int, j: nat)
    requires WellFormed(Phonemes) && |prev| == 4 && NonNegative(prev) && j < 4
    requires forall i :: 0 <= i < 4 && i != c ==> prev[i] == 0.0
    ensures NonNegative(Trans(Phonemes, prev, j))
    ensures forall i :: 0 <= i < 4 && i != j - 1 ==> Trans(Phonemes, prev, j)[i] == 0.0
    ensures j != c + 1 ==> forall i :: 0 <= i < 4 ==> Trans(Phonemes, prev, j)[i] == 0.0
  {
    var tr := Trans(Phonemes, prev, j);
    forall i | 0 <= i < 4
      ensures tr[i] >= 0.0
      ensures i != j - 1 ==> tr[i] == 0.0
      ensures j != c + 1 ==> tr[i] == 0.0
    {
      Transition(i, j);
      MulNonNegative(prev[i], Phonemes.a[i][j]);
    }
  }

  /** Row t of delta is non-negative and zero away from phoneme t. */
  lemma {:induction false} DeltaShape(e: seq<nat>, t: nat)
    requires WellFormed(Phonemes) && Emits(Phonemes, e) && t < |e|
    ensures NonNegative(DeltaRow(Phonemes, e, t))
    ensures forall j :: 0 <= j < 4 && j != t ==> DeltaRow(Phonemes, e, t)[j] == 0.0
  {
    hide DeltaRow, Trans;
    var d := DeltaRow(Phonemes, e, t);
    if t == 0 {
      DeltaFirst(Phonemes, e);
      forall j | 0 <= j < 4
        ensures d[j] >= 0.0 && (j != 0 ==> d[j] == 0.0)
      {
        MulNonNegative(Phonemes.pi[j], Phonemes.b[j][e[0]]);
      }
    } else {
      DeltaShape(e, t - 1);
      var prev := DeltaRow(Phonemes, e, t - 1);
      forall j | 0 <= j < 4
        ensures d[j] >= 0.0 && (j != t ==> d[j] == 0.0)
      {
        var tr := Trans(Phonemes, prev, j);
        TransSupport(prev, t - 1, j);
        assert Max(tr) == tr[ArgMax(tr)];
        DeltaStep(Phonemes, e, t, j);
        MulNonNegative(Phonemes.b[j][e[t]], Max(tr));
      }
    }
  }

  /** The decoded phoneme at time t is T/L or phoneme t. */
  lemma {:induction false} StateShape(e: seq<nat>, t: nat)
    requires WellFormed(Phonemes) && Emits(Phonemes, e) && t < |e|
    ensures State(Phonemes, e, t) == 0 || State(Phonemes, e, t) == t
    decreases |e| - t
  {
    hide DeltaRow, PsiRow, State, Trans;
    if t == |e| - 1 {
      LastState(Phonemes, e);
      DeltaShape(e, t);
      SupportArgMax(DeltaRow(Phonemes, e, t), t);
    } else {
      StateShape(e, t + 1);
      StateStep(Phonemes, e, t + 1);
      var j := State(Phonemes, e, t + 1);
      PsiEntry(Phonemes, e, t + 1, j);
      var prev := DeltaRow(Phonemes, e, t);
      DeltaShape(e, t);
      TransSupport(prev, t, j);
      SupportArgMax(Trans(Phonemes, prev, j), j as int - 1);
    }
  }

  /** `viterbi_decodificacion_simple`: the decoded word and the best final score
      `np.max(delta[T-1, :])`. An empty recording fails at `observaciones[0]` and an unknown
      sound at `obs_map`. */
  method Decode(obs: seq<string>) returns (r: Result<(string, real)>)
    ensures r.Err? <==> Encode(Phonemes.symbols, obs).Err?
    ensures r.Err? ==> r.error == Encode(Phonemes.symbols, obs).error
    ensures r.Ok? ==> var e := Encode(Phonemes.symbols, obs).value;
      r.value == (Word(Names(Phonemes, DecodedPath(Phonemes, e))[0], obs[0]), Max(DeltaRow(Phonemes, e, |e| - 1)))
  {
    PhonemesWellFormed();
    var e :- Encode(Phonemes.symbols, obs);
    var delta, psi := ViterbiTables(Phonemes, e);
    var path := Backtrack(Phonemes, e, delta, psi);
    var phonemes := Names(Phonemes, path[..]);
    var word: string;
    if phonemes[0] == "T/L" {
      if obs[0] == "Fuerte" {
        word := "Toma";
      } else {
        word := "Loma";
      }
    } else {
      word := ErrorWord;
    }
    var last := RowOf(delta, |e| - 1);
    assert last == DeltaRow(Phonemes, e, |e| - 1);
    r := Ok((word, Max(last)));
  }

  /** The decoded path always starts in T/L, so the error answer never comes back: the word is
      "Toma" exactly when the first sound is Fuerte, and "Loma" otherwise. */
  lemma DecodedWord(obs: seq<string>)
    requires WellFormed(Phonemes) && Encode(Phonemes.symbols, obs).Ok?
    ensures var e := Encode(Phonemes.symbols, obs).value;
      Names(Phonemes, DecodedPath(Phonemes, e))[0] == "T/L"
    ensures var e := Encode(Phonemes.symbols, obs).value;
      var w := Word(Names(Phonemes, DecodedPath(Phonemes, e))[0], obs[0]);
      (w == "Toma" <==> obs[0] == "Fuerte") && (w == "Loma" <==> obs[0] != "Fuerte") && w != ErrorWord
  {
    var e := Encode(Phonemes.symbols, obs).value;
    EncodeEmits(Phonemes, obs);
    StateShape(e, 0);
  }

  /** A recording of more than four sounds outlives the word: the last row of delta is all
      zeros, and so is the returned score. */
  lemma ScoreVanishes(e: seq<nat>)
    requires WellFormed(Phonemes) && Emits(Phonemes, e) && |e| > 4
    ensures DeltaRow(Phonemes, e, |e| - 1) == Zeros(4)
    ensures Max(DeltaRow(Phonemes, e, |e| - 1)) == 0.0
  {
    hide DeltaRow;
    DeltaShape(e, |e| - 1);
    var d := DeltaRow(Phonemes, e, |e| - 1);
    assert d == Zeros(4);
    assert Max(d) == d[ArgMax(d)];
  }
}
