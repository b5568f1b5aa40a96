/** The concrete models the temporal-reasoning and learning scripts decode and filter: the
    machine-maintenance model (003_Fil_Suav_Pred_Exp.py, 004_Delante_Atras.py), the market
    volatility model (03_Razonamiento_Probabilistico_Tiempo/005_Mod_Oculto_Markov.py) and the DNA
    model (04_Aprendizaje_Probabilistico/005_Mod_Oculto_Markov.py). */
module HmmModels {
  import opened Wrappers
  import opened Vectors
  import opened Hmm
  import opened Filtering

  /** States Normal and Fallo; observations Bajo, Medio, Alto. */
  const Maintenance: Model := Model(
    ["Normal", "Fallo"],
    map["Bajo" := 0, "Medio" := 1, "Alto" := 2],
    [[0.9, 0.1], [0.3, 0.7]],
    [[0.8, 0.15, 0.05], [0.05, 0.25, 0.7]],
    [0.5, 0.5])

  /** States Baja_Vol and Alta_Vol; observations P_Severa, R_Medio, G_Severa. */
  const Market: Model := Model(
    ["Baja_Vol", "Alta_Vol"],
    map["P_Severa" := 0, "R_Medio" := 1, "G_Severa" := 2],
    [[0.95, 0.05], [0.15, 0.85]],
    [[0.10, 0.80, 0.10], [0.40, 0.20, 0.40]],
    [0.7, 0.3])

  /** States Intron and Exon; observations the four bases. */
  const Dna: Model := Model(
    ["Intron", "Exon"],
    map["A" := 0, "C" := 1, "G" := 2, "T" := 3],
    [[0.9, 0.1], [0.2, 0.8]],
    [[0.25, 0.25, 0.25, 0.25], [0.35, 0.15, 0.35, 0.15]],
    [0.7, 0.3])

  lemma SumPair(x: real, y: real)
    ensures Sum([x, y]) == x + y
  {
    assert [x, y][..1] == [x] && [x][..0] == [];
    assert Sum([x]) == Sum([]) + x;
  }

  /** The maintenance model is a proper model with no zero probability, and its rows are
      distributions; so filtering never meets a row it cannot normalise, and prediction keeps
      a distribution a distribution. */
  lemma MaintenanceModel()
    ensures WellFormed(Maintenance) && PositiveModel(Maintenance)
    ensures Stochastic(Maintenance.a) && Sum(Maintenance.pi) == 1.0
  {
    SumPair(0.9, 0.1);
    SumPair(0.3, 0.7);
    SumPair(0.5, 0.5);
  }

  lemma MarketModel()
    ensures WellFormed(Market) && PositiveModel(Market)
    ensures Stochastic(Market.a) && Sum(Market.pi) == 1.0
  {
    SumPair(0.95, 0.05);
    SumPair(0.15, 0.85);
    SumPair(0.7, 0.3);
  }

  lemma DnaModel()
    ensures WellFormed(Dna) && PositiveModel(Dna)
    ensures Stochastic(Dna.a) && Sum(Dna.pi) == 1.0
  {
    SumPair(0.9, 0.1);
    SumPair(0.2, 0.8);
    SumPair(0.7, 0.3);
  }

  /** In the maintenance model every forward row and every backward row can be normalised. */
  lemma MaintenanceRowsFinite(e: seq<nat>, t: nat, normaliseFirst: bool)
    requires WellFormed(Maintenance) && Emits(Maintenance, e) && t < |e|
    ensures Alpha(Maintenance, e, t, normaliseFirst).Some?
    ensures Beta(Maintenance, e[1..], t).Some?
  {
    MaintenanceModel();
    AlphaPositive(Maintenance, e, t, normaliseFirst);
    BetaPositive(Maintenance, e[1..], t);
  }

  /** The DNA decoder accepts exactly the non-empty strings over A, C, G and T; anything else
      fails at `obs_map`, and the empty string at `obs_secuencia[0]`. */
  lemma DnaAlphabet(obs: seq<string>)
    ensures Encode(Dna.symbols, obs).Ok? <==>
      obs != [] && forall t :: 0 <= t < |obs| ==> obs[t] in {"A", "C", "G", "T"}
  {
    assert Dna.symbols.Keys == {"A", "C", "G", "T"};
  }
}
