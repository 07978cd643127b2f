/**
 * Worked instances of the embedding: the dimension boundary on a graph of
 * order 5, and the path graph 0-1-2-3 with dim = 2 under both methods.
 */
module Scenarios {
  import opened GraphMatrices
  import opened Ranking
  import opened GleeEmbedding

  /** For N = 5, dim = 4 is accepted and dim = 5, 1 and 0 are rejected. */
  lemma OrderFiveBoundary(a: Matrix, variant: Method, returnVals: bool, num: Numerics)
    requires |a| == 5 && IsSquare(a) && SolverContract(num.solve)
    requires variant == Eigen ==> NoIsolatedNodes(a)
    ensures Eigenmaps(a, 4, variant, returnVals, num).Ok?
    ensures Eigenmaps(a, 5, variant, returnVals, num) == Err(InvalidDimension)
    ensures Eigenmaps(a, 1, variant, returnVals, num) == Err(InvalidDimension)
    ensures Eigenmaps(a, 0, variant, returnVals, num) == Err(InvalidDimension)
  {
  }

  /** The adjacency matrix of the path graph with edges 0-1, 1-2, 2-3. */
  function PathFour(): (a: Matrix)
    ensures |a| == 4 && IsSquare(a) && IsSymmetric(a) && IsNonNegative(a)
    ensures NoIsolatedNodes(a)
  {
    var a: Matrix :=
      [[0.0, 1.0, 0.0, 0.0],
       [1.0, 0.0, 1.0, 0.0],
       [0.0, 1.0, 0.0, 1.0],
       [0.0, 0.0, 1.0, 0.0]];
    SumOfFour(a[0]);
    SumOfFour(a[1]);
    SumOfFour(a[2]);
    SumOfFour(a[3]);
    a
  }

  /** Its degrees are 1, 2, 2, 1 and its Laplacian is the familiar tridiagonal matrix. */
  lemma PathFourLaplacian()
    ensures DegreeVector(PathFour()) == [1.0, 2.0, 2.0, 1.0]
    ensures Laplacian(PathFour()) ==
              [[1.0, -1.0, 0.0, 0.0],
               [-1.0, 2.0, -1.0, 0.0],
               [0.0, -1.0, 2.0, -1.0],
               [0.0, 0.0, -1.0, 1.0]]
  {
    var a := PathFour();
    SumOfFour(a[0]);
    SumOfFour(a[1]);
    SumOfFour(a[2]);
    SumOfFour(a[3]);
    var l := Laplacian(a);
    var expected: Matrix :=
      [[1.0, -1.0, 0.0, 0.0],
       [-1.0, 2.0, -1.0, 0.0],
       [0.0, -1.0, 2.0, -1.0],
       [0.0, 0.0, -1.0, 1.0]];
    forall i | 0 <= i < 4 ensures l[i] == expected[i] {
      assert forall j | 0 <= j < 4 :: l[i][j] == Degrees(a)[i][j] - a[i][j];
    }
    assert l == expected;
  }

  lemma SumOfFour(s: seq<real>)
    requires |s| == 4
    ensures Sum(s) == s[0] + s[1] + s[2] + s[3]
  {
    assert Sum(s) == Sum(s[..3]) + s[3];
    assert Sum(s[..3]) == Sum(s[..2]) + s[2] by { assert s[..3][..2] == s[..2]; }
    assert Sum(s[..2]) == Sum(s[..1]) + s[1] by { assert s[..2][..1] == s[..1]; }
    assert Sum(s[..1]) == s[0] by { assert s[..1][..0] == []; }
  }

  /**
   * On four nodes dim = 2 exceeds N - 3, so both methods use the full
   * decomposition: GLEE keeps all four pairs, the classical eigenmap three.
   */
  lemma PathFourPlans()
    ensures PlanFor(Glee, 2, 4) == Plan(true, Combinatorial, DenseSymmetric)
    ensures PlanFor(Eigen, 2, 4) == Plan(true, DegreeNormalized, DenseGeneral)
  {
  }

  /**
   * With post-processed values 0, x, 2, y where 0 < x < 2 < y (the spectrum
   * 0, 2 - sqrt 2, 2, 2 + sqrt 2 of the path's Laplacian), GLEE with dim = 2
   * returns the values y, 2 in that order.
   */
  lemma PathFourGleeKeepsTwoLargest(post: seq<EigenPair>, x: real, y: real)
    requires |post| == 4 && 0.0 < x < 2.0 < y
    requires Values(post) == [0.0, x, 2.0, y]
    requires forall k | 0 <= k < 4 :: |post[k].vector| == 4
    ensures Rank(post, Glee, 2, 4).values == [y, 2.0]
  {
    var vals := Values(post);
    SelectsTopTwo(vals);
    RankIsAssemble(post, Glee, 2, 4);
  }

  lemma SelectsTopTwo(vals: seq<real>)
    requires |vals| == 4 && vals[0] == 0.0 && 0.0 < vals[1] < 2.0 && vals[2] == 2.0 && 2.0 < vals[3]
    ensures Select(vals, true, 2) == [3, 2]
  {
    var sel := Select(vals, true, 2);
    SelectRanksAhead(vals, true, 2);
    TopTwo(vals, sel);
  }

  /** Two distinct indices that rank ahead of the rest of 0, x, 2, y (descending) are 3, 2. */
  lemma TopTwo(vals: seq<real>, sel: seq<nat>)
    requires |vals| == 4 && vals[0] == 0.0 && 0.0 < vals[1] < 2.0 && vals[2] == 2.0 && 2.0 < vals[3]
    requires |sel| == 2 && InBounds(vals, sel) && Distinct(sel) && Descending(vals, sel)
    requires forall j, k | 0 <= j < 2 && 0 <= k < 4 && k !in sel :: vals[sel[j]] >= vals[k]
    ensures sel == [3, 2]
  {
  }

  /**
   * With values 0, x, 2, y returned in that order by the full solver, the
   * classical eigenmap drops the first pair and with dim = 2 returns x, 2.
   */
  lemma PathFourEigenKeepsTwoSmallest(cleaned: seq<EigenPair>, d: seq<real>, num: Numerics, x: real, y: real)
    requires |cleaned| == 4 && |d| == 4 && 0.0 < x < 2.0 < y
    requires cleaned[0].value == 0.0 && cleaned[1].value == x && cleaned[2].value == 2.0 && cleaned[3].value == y
    requires forall k | 0 <= k < 4 :: |cleaned[k].vector| == 4
    ensures Rank(PostProcess(Eigen, cleaned, d, num), Eigen, 2, 4).values == [x, 2.0]
  {
    var post := PostProcess(Eigen, cleaned, d, num);
    EigenDropsFirst(cleaned, d, num, x, y);
    assert Values(post) == [x, 2.0, y];
    EigenKeepsTwoSmallest(post, x, 2.0, y);
  }

  /** Ranked ascending, the pairs with values u < v < w keep u, v for dim = 2. */
  lemma EigenKeepsTwoSmallest(post: seq<EigenPair>, u: real, v: real, w: real)
    requires |post| == 3 && 0.0 <= u < v < w
    requires Values(post) == [u, v, w]
    requires forall k | 0 <= k < 3 :: |post[k].vector| == 4
    ensures Rank(post, Eigen, 2, 4).values == [u, v]
  {
    SelectsBottomTwo(Values(post));
    RankIsAssemble(post, Eigen, 2, 4);
    var e := Assemble(post, [0, 1], 4);
    assert e.values[0] == u && e.values[1] == v;
  }

  lemma SelectsBottomTwo(vals: seq<real>)
    requires |vals| == 3 && vals[0] < vals[1] < vals[2]
    ensures Select(vals, false, 2) == [0, 1]
  {
    var sel := Select(vals, false, 2);
    SelectRanksAhead(vals, false, 2);
    BottomTwo(vals, sel);
  }

  /** Dropping the first of the pairs with values 0, x, 2, y leaves x, 2, y. */
  lemma EigenDropsFirst(cleaned: seq<EigenPair>, d: seq<real>, num: Numerics, x: real, y: real)
    requires |cleaned| == 4 && |d| == 4
    requires cleaned[1].value == x && cleaned[2].value == 2.0 && cleaned[3].value == y
    requires forall k | 0 <= k < 4 :: |cleaned[k].vector| == 4
    ensures var post := PostProcess(Eigen, cleaned, d, num);
            |post| == 3 && post[0].value == x && post[1].value == 2.0 && post[2].value == y
  {
  }

  /** Two distinct indices that rank ahead of the rest of three increasing values are 0, 1. */
  lemma BottomTwo(vals: seq<real>, sel: seq<nat>)
    requires |vals| == 3 && vals[0] < vals[1] < vals[2]
    requires |sel| == 2 && InBounds(vals, sel) && Distinct(sel) && Ascending(vals, sel)
    requires forall j, k | 0 <= j < 2 && 0 <= k < 3 && k !in sel :: vals[sel[j]] <= vals[k]
    ensures sel == [0, 1]
  {
  }

  // ---------------------------------------------------------------------
  // The path graph end to end, through Eigenmaps

  /**
   * GLEE on the path graph with dim = 2, for a dense symmetric solver that
   * returns the eigenvalues 0, x, 2, y (0 < x < 2 < y) of any 4 x 4 matrix:
   * the two largest, y and 2, come back in that order.
   */
  lemma PathFourGleeEndToEnd(num: Numerics, x: real, y: real)
    requires SolverContract(num.solve) && 0.0 < x < 2.0 < y
    requires forall m: Matrix | |m| == 4 :: Values(num.solve(m, DenseSymmetric)) == [0.0, x, 2.0, y]
    ensures Eigenmaps(PathFour(), 2, Glee, true, num).Ok?
    ensures Eigenmaps(PathFour(), 2, Glee, true, num).value.values == [y, 2.0]
  {
    FourNodesGlee(PathFour(), num, x, y);
  }

  lemma FourNodesGlee(a: Matrix, num: Numerics, x: real, y: real)
    requires |a| == 4 && IsSquare(a)
    requires SolverContract(num.solve) && 0.0 < x < 2.0 < y
    requires forall m: Matrix | |m| == 4 :: Values(num.solve(m, DenseSymmetric)) == [0.0, x, 2.0, y]
    ensures Eigenmaps(a, 2, Glee, true, num).Ok?
    ensures Eigenmaps(a, 2, Glee, true, num).value.values == [y, 2.0]
  {
    ReturnedValuesAreRanked(a, 2, Glee, num);
    GleeRanksSpectrumOfFour(a, num, x, y);
  }

  lemma GleeRanksSpectrumOfFour(a: Matrix, num: Numerics, x: real, y: real)
    requires |a| == 4 && IsSquare(a)
    requires SolverContract(num.solve) && 0.0 < x < 2.0 < y
    requires forall m: Matrix | |m| == 4 :: Values(num.solve(m, DenseSymmetric)) == [0.0, x, 2.0, y]
    ensures Rank(Spectrum(a, 2, Glee, num), Glee, 2, 4).values == [y, 2.0]
  {
    PathFourPlans();
    SpectrumOfFour(a, Glee, num, [0.0, x, 2.0, y]);
    PathFourGleeKeepsTwoLargest(Spectrum(a, 2, Glee, num), x, y);
  }

  /**
   * The classical eigenmap drops the pair the solver returns first, not the
   * zero eigenvalue: if the dense general solver returns the values x, 0, 2,
   * y (0 < x < 2 < y), the pair with value x is dropped and the embedding
   * keeps 0 and 2.
   */
  lemma PathFourEigenDropsFirstReturned(num: Numerics, x: real, y: real)
    requires SolverContract(num.solve) && 0.0 < x < 2.0 < y
    requires forall m: Matrix | |m| == 4 :: Values(num.solve(m, DenseGeneral)) == [x, 0.0, 2.0, y]
    ensures Eigenmaps(PathFour(), 2, Eigen, true, num).Ok?
    ensures Eigenmaps(PathFour(), 2, Eigen, true, num).value.values == [0.0, 2.0]
  {
    FourNodesEigen(PathFour(), num, x, y);
  }

  lemma FourNodesEigen(a: Matrix, num: Numerics, x: real, y: real)
    requires |a| == 4 && IsSquare(a) && NoIsolatedNodes(a)
    requires SolverContract(num.solve) && 0.0 < x < 2.0 < y
    requires forall m: Matrix | |m| == 4 :: Values(num.solve(m, DenseGeneral)) == [x, 0.0, 2.0, y]
    ensures Eigenmaps(a, 2, Eigen, true, num).Ok?
    ensures Eigenmaps(a, 2, Eigen, true, num).value.values == [0.0, 2.0]
  {
    ReturnedValuesAreRanked(a, 2, Eigen, num);
    EigenRanksSpectrumOfFour(a, num, x, y);
  }

  lemma EigenRanksSpectrumOfFour(a: Matrix, num: Numerics, x: real, y: real)
    requires |a| == 4 && IsSquare(a) && NoIsolatedNodes(a)
    requires SolverContract(num.solve) && 0.0 < x < 2.0 < y
    requires forall m: Matrix | |m| == 4 :: Values(num.solve(m, DenseGeneral)) == [x, 0.0, 2.0, y]
    ensures Rank(Spectrum(a, 2, Eigen, num), Eigen, 2, 4).values == [0.0, 2.0]
  {
    PathFourPlans();
    SpectrumOfFour(a, Eigen, num, [x, 0.0, 2.0, y]);
    EigenKeepsTwoSmallest(Spectrum(a, 2, Eigen, num), 0.0, 2.0, y);
  }

  /** An accepted dim returns the ranked values of the post-processed pairs. */
  lemma ReturnedValuesAreRanked(a: Matrix, dim: nat, variant: Method, num: Numerics)
    requires Admissible(a, dim, variant, num)
    ensures Eigenmaps(a, dim, variant, true, num).Ok?
    ensures Eigenmaps(a, dim, variant, true, num).value.values
         == Rank(Spectrum(a, dim, variant, num), variant, dim, |a|).values
  {
  }

  /**
   * For N = 4 and dim = 2 (the full branch), when the plan's solver returns
   * the non-negative values vals for every 4 x 4 matrix, the post-processed
   * pairs carry those values, after the first for the classical eigenmap.
   */
  lemma SpectrumOfFour(a: Matrix, variant: Method, num: Numerics, vals: seq<real>)
    requires |a| == 4 && IsSquare(a) && SolverContract(num.solve)
    requires variant == Eigen ==> NoIsolatedNodes(a)
    requires |vals| == 4 && forall k | 0 <= k < 4 :: vals[k] >= 0.0
    requires forall m: Matrix | |m| == 4 :: Values(num.solve(m, PlanFor(variant, 2, 4).solver)) == vals
    ensures |Spectrum(a, 2, variant, num)| == 4 - Dropped(variant)
    ensures Values(Spectrum(a, 2, variant, num)) == vals[Dropped(variant)..]
  {
    PathFourPlans();
    var plan := PlanFor(variant, 2, 4);
    var raw := Solved(a, 2, variant, num);
    assert raw == num.solve(TargetMatrix(plan.target, a), plan.solver);
    assert Values(raw) == vals;
    var post := Spectrum(a, 2, variant, num);
    assert forall i | 0 <= i < |post| :: Values(post)[i] == vals[Dropped(variant)..][i];
  }
}
