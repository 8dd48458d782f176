/** Grids on which the rung-0 gate refuses a correct pipeline, one for each way it can. */
module DryRunRefusals {
  import opened Prelude
  import opened RealArith
  import opened LeastSquares
  import opened GridFit
  import opened DryRun
  import opened DryRunTheory
  import opened DryRunGate

  // ---------- covariances of short lists ----------

  lemma TwoSums(a: real, b: real, c: real, d: real)
    ensures Sum([a, b]) == a + b && Dot([a, b], [c, d]) == a * c + b * d
  {
    assert [a, b][..1] == [a] && [a][..0] == [] && [c, d][..1] == [c] && [c][..0] == [];
    assert Prod(a - 0.0, c - 0.0) == a * c && Prod(b - 0.0, d - 0.0) == b * d;
    assert Sum([a]) == a && Cross([a], [c], 0.0, 0.0) == a * c;
  }

  lemma FourSums(a: real, b: real, c: real, d: real, e: real, f: real, g: real, h: real)
    ensures Sum([a, b, c, d]) == a + b + c + d
    ensures Dot([a, b, c, d], [e, f, g, h]) == a * e + b * f + c * g + d * h
  {
    var xs, ys := [a, b, c, d], [e, f, g, h];
    TwoSums(a, b, e, f);
    assert xs[..3] == [a, b, c] && [a, b, c][..2] == [a, b];
    assert ys[..3] == [e, f, g] && [e, f, g][..2] == [e, f];
    assert Sum([a, b, c]) == a + b + c;
    assert Dot([a, b, c], [e, f, g]) == a * e + b * f + c * g;
  }

  // ---------- too steep ----------

  /** Seq_lens 19 and 20 at block size 16: one more token, one more block. */
  const STEEP := Params("steep", [19, 20], [1], 1, 1, 16, 4, 1, 1)

  lemma SteepGrid()
    ensures GridOf(STEEP) == [(19, 1), (20, 1)]
  {
    assert [19, 20][..1] == [19] && [19][..0] == [];
    assert Grid([], [1]) == [];
    assert Grid([19], [1]) == [(19, 1)];
    assert Grid([19, 20], [1]) == [(19, 1)] + [(20, 1)];
  }

  lemma SteepPoints()
    ensures PairTokens(STEEP, [(19, 1), (20, 1)]) == [48.0, 49.0]
    ensures PairPads(STEEP, [(19, 1), (20, 1)]) == [0.0, 15.0]
  {
    CeilDivUnique(48, 16, 3);
    CeilDivUnique(49, 16, 4);
  }

  lemma SteepCovariances()
    ensures GridOf(STEEP) != [] && TokenVariance(STEEP) == 0.5 && PadCovariance(STEEP) == 7.5
  {
    hide Cov, Sum, Grid, PairTokens, PairPads;
    SteepGrid();
    SteepPoints();
    TwoSums(48.0, 49.0, 48.0, 49.0);
    TwoSums(48.0, 49.0, 0.0, 15.0);
    TwoSums(0.0, 15.0, 0.0, 15.0);
    CovRaw([48.0, 49.0], [48.0, 49.0]);
    CovRaw([48.0, 49.0], [0.0, 15.0]);
  }

  /**
   "At most one block of rounding per shortest length above it" fails too: here the slope is
   sixteen times the injected one although it is not below it, and the gate refuses.
   */
  lemma SteepRemaindersRefused()
    ensures GoodGrid(STEEP) && PadCovariance(STEEP) >= 0.0 && Outcome(STEEP) == Err(SlopeOutside)
  {
    hide TokenVariance, PadCovariance, SlotVariance, Grid, Outcome, SomeCellDominates;
    SteepCovariances();
    GatePassesIff(STEEP);
    QuotientBounds(16.0, 19.0, 1.0);
    var q := Quot(16.0, 19.0);
    assert Prod(1.0, 19.0) == 19.0 && Prod(q, 0.5) == q * 0.5;
  }

  // ---------- too scattered ----------

  /** Congruent lengths of 30 and 1000 live tokens at block size 970, alone and in pairs. */
  const SCATTERED := Params("scattered", [1, 971], [1, 2], 1, 1, 970, 4, 1, 1)

  lemma ScatteredGrid()
    ensures GridOf(SCATTERED) == [(1, 1), (1, 2), (971, 1), (971, 2)]
  {
    assert [1, 971][..1] == [1] && [1][..0] == [];
    assert Grid([], [1, 2]) == [];
    assert Grid([1], [1, 2]) == [(1, 1), (1, 2)];
    assert Grid([1, 971], [1, 2]) == [(1, 1), (1, 2)] + [(971, 1), (971, 2)];
  }

  const SCATTERED_TOKENS := [30.0, 60.0, 1000.0, 2000.0]
  const SCATTERED_PADS := [940.0, 1880.0, 940.0, 1880.0]
  const SCATTERED_SLOTS := [970.0, 1940.0, 1940.0, 3880.0]

  lemma ScatteredPoints()
    ensures var grid := [(1, 1), (1, 2), (971, 1), (971, 2)];
            && PairTokens(SCATTERED, grid) == SCATTERED_TOKENS
            && PairPads(SCATTERED, grid) == SCATTERED_PADS
            && Plus(SCATTERED_TOKENS, SCATTERED_PADS) == SCATTERED_SLOTS
  {
    CeilDivUnique(30, 970, 1);
    CeilDivUnique(1000, 970, 2);
    PlusIndex(SCATTERED_TOKENS, SCATTERED_PADS);
  }

  lemma ScatteredCovariances()
    ensures GridOf(SCATTERED) != []
    ensures TokenVariance(SCATTERED) == 2617475.0 && PadCovariance(SCATTERED) == 484100.0 && SlotVariance(SCATTERED) == 4469275.0
  {
    hide Cov, Sum, Dot, Grid, PairTokens, PairPads, Plus;
    ScatteredGrid();
    ScatteredPoints();
    FourSums(30.0, 60.0, 1000.0, 2000.0, 30.0, 60.0, 1000.0, 2000.0);
    FourSums(30.0, 60.0, 1000.0, 2000.0, 940.0, 1880.0, 940.0, 1880.0);
    FourSums(940.0, 1880.0, 940.0, 1880.0, 940.0, 1880.0, 940.0, 1880.0);
    FourSums(970.0, 1940.0, 1940.0, 3880.0, 970.0, 1940.0, 1940.0, 3880.0);
    CovRaw(SCATTERED_TOKENS, SCATTERED_TOKENS);
    CovRaw(SCATTERED_TOKENS, SCATTERED_PADS);
    CovRaw(SCATTERED_SLOTS, SCATTERED_SLOTS);
  }

  lemma ScatteredNumbers()
    ensures Quot(970.0, 1.0) == 970.0
    ensures Prod(-0.001, 2617475.0) <= 484100.0 <= Prod(970.0, 2617475.0)
    ensures Sq(2617475.0 + 484100.0) < Prod(0.98, Prod(2617475.0, 4469275.0))
  {}

  /** Even on congruent lengths the R^2 half can refuse: here it is about 0.82. */
  lemma ScatteredBatchesRefused()
    ensures GoodGrid(SCATTERED) && Congruent(SCATTERED) && Outcome(SCATTERED) == Err(LowR2)
  {
    hide TokenVariance, PadCovariance, SlotVariance, Grid, Outcome, SomeCellDominates, Prod, Sq, Quot, GridOf;
    ScatteredCovariances();
    ScatteredIsCongruent();
    GatePassesIff(SCATTERED);
    ScatteredNumbers();
  }

  lemma ScatteredIsCongruent()
    ensures Congruent(SCATTERED)
  {
    assert 971 % 970 == 1;
  }
}
