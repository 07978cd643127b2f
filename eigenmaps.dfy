/**
 * The Eigenmap embedding of a graph given by its adjacency matrix: entry
 * validation of the dimension, the choice of target matrix and eigensolver,
 * the clean-up and method-specific post-processing of the eigenpairs, and
 * their ranking and truncation into an N x dim embedding.
 *
 * The eigensolvers and the floating-point square roots are foreign routines:
 * they are fields of a `Numerics` value passed in, and the model assumes of
 * a solver only that it returns as many pairs as it was asked for, each with
 * a vector of length N.
 */
module GleeEmbedding {
  import opened GraphMatrices
  import opened Ranking

  /** GLEE (geometric Laplacian eigenmap) or the classical Laplacian eigenmap. */
  datatype Method = Glee | Eigen

  /** The end of the spectrum a partial solver is asked for. */
  datatype Which = LargestMagnitude | SmallestMagnitude

  /**
   * The four eigensolvers: full dense decompositions (symmetric or general)
   * return every eigenpair; partial sparse solvers return k of them.
   */
  datatype Solver =
    | DenseSymmetric
    | DenseGeneral
    | SparseSymmetric(k: nat, which: Which)
    | SparseGeneral(k: nat, which: Which)

  /** The matrix handed to the solver: L itself or D^-1 L. */
  datatype Target = Combinatorial | DegreeNormalized

  datatype Plan = Plan(isFull: bool, target: Target, solver: Solver)

  datatype EigenPair = EigenPair(value: real, vector: seq<real>)

  /** The foreign numerical routines the embedding calls. */
  datatype Numerics = Numerics(
    solve: (Matrix, Solver) -> seq<EigenPair>,
    sqrt: real -> real,
    invSqrt: real -> real)

  datatype Error = InvalidDimension

  datatype Result<T> = Ok(value: T) | Err(error: Error)

  /** The embedding matrix, with or without its eigenvalues. */
  datatype Output =
    | Vectors(vectors: Matrix)
    | VectorsAndValues(vectors: Matrix, values: seq<real>)

  /** How many eigenpairs a solver returns for an n x n matrix. */
  function Requested(s: Solver, n: nat): nat {
    match s
    case DenseSymmetric => n
    case DenseGeneral => n
    case SparseSymmetric(k, _) => k
    case SparseGeneral(k, _) => k
  }

  /** What the model assumes of the solver: the requested count, vectors of length n. */
  ghost predicate SolverContract(solve: (Matrix, Solver) -> seq<EigenPair>) {
    forall m: Matrix, s: Solver ::
      && |solve(m, s)| == Requested(s, |m|)
      && forall i | 0 <= i < |solve(m, s)| :: |solve(m, s)[i].vector| == |m|
  }

  /** The dimensions the embedding accepts for a graph of order n. */
  predicate ValidDim(dim: int, n: nat) {
    2 <= dim <= n - 1
  }

  /** Whether the full dense decomposition is used rather than a partial solver. */
  predicate IsFull(dim: int, n: nat) {
    dim > n - 3
  }

  /** How many leading eigenpairs the post-processing discards. */
  function Dropped(variant: Method): nat {
    if variant == Eigen then 1 else 0
  }

  // ---------------------------------------------------------------------
  // Solver dispatch

  /**
   * The four-way table over the variant and IsFull: GLEE works on L with a
   * symmetric solver asking for dim pairs of largest magnitude; the
   * classical eigenmap works on D^-1 L with a general solver asking for
   * dim + 1 pairs of smallest magnitude; a full solver returns all n pairs.
   */
  function PlanFor(variant: Method, dim: nat, n: nat): (p: Plan)
    requires ValidDim(dim, n)
    ensures p.isFull == IsFull(dim, n)
    ensures p.target == (if variant == Glee then Combinatorial else DegreeNormalized)
    ensures (variant == Glee) == (p.solver.DenseSymmetric? || p.solver.SparseSymmetric?)
    ensures p.isFull == (p.solver.DenseSymmetric? || p.solver.DenseGeneral?)
    ensures !p.isFull ==>
              p.solver.which == (if variant == Glee then LargestMagnitude else SmallestMagnitude)
    ensures Requested(p.solver, n) ==
              if p.isFull then n else if variant == Glee then dim else dim + 1
  {
    var full := IsFull(dim, n);
    match (variant, full)
    case (Glee, true) => Plan(full, Combinatorial, DenseSymmetric)
    case (Glee, false) => Plan(full, Combinatorial, SparseSymmetric(dim, LargestMagnitude))
    case (Eigen, true) => Plan(full, DegreeNormalized, DenseGeneral)
    case (Eigen, false) => Plan(full, DegreeNormalized, SparseGeneral(dim + 1, SmallestMagnitude))
  }

  /**
   * Whatever the branch, the pairs left once the post-processing has dropped
   * what it drops number at least dim, exactly dim in the partial branch; a
   * partial solver is asked for at most n - 2 pairs.
   */
  lemma PlanLeavesEnoughPairs(variant: Method, dim: nat, n: nat)
    requires ValidDim(dim, n)
    ensures var p := PlanFor(variant, dim, n);
            && Requested(p.solver, n) >= Dropped(variant)
            && Requested(p.solver, n) - Dropped(variant) >= dim
            && (!p.isFull ==> Requested(p.solver, n) - Dropped(variant) == dim)
            && (!p.isFull ==> Requested(p.solver, n) <= n - 2)
            && (p.isFull ==> Requested(p.solver, n) - Dropped(variant) <= dim + 2)
  {
  }

  /** The matrix the plan's solver is run on; every row of it sums to zero. */
  function TargetMatrix(t: Target, a: Matrix): (m: Matrix)
    requires IsSquare(a)
    requires t == DegreeNormalized ==> NoIsolatedNodes(a)
    ensures |m| == |a| && IsSquare(m)
    ensures forall i | 0 <= i < |a| :: Sum(m[i]) == 0.0
    ensures t == Combinatorial ==> m == Laplacian(a)
    ensures t == DegreeNormalized ==> m == NormalizedLaplacian(a)
  {
    match t
    case Combinatorial => LaplacianDegrees(a).0
    case DegreeNormalized => NormalizedLaplacian(a)
  }

  // ---------------------------------------------------------------------
  // Eigenpair bookkeeping

  function Abs(x: real): real {
    if x < 0.0 then -x else x
  }

  /** Every eigenvalue replaced by its absolute value; vectors untouched. */
  function Cleanup(raw: seq<EigenPair>): (c: seq<EigenPair>)
    ensures |c| == |raw|
    ensures forall i | 0 <= i < |c| :: c[i].value >= 0.0
    ensures forall i | 0 <= i < |c| :: c[i].value == raw[i].value || c[i].value == -raw[i].value
    ensures forall i | 0 <= i < |c| :: c[i].vector == raw[i].vector
  {
    seq(|raw|, i requires 0 <= i < |raw| => EigenPair(Abs(raw[i].value), raw[i].vector))
  }

  /** The eigenvalues of a list of pairs. */
  function Values(ps: seq<EigenPair>): (vs: seq<real>)
    ensures |vs| == |ps|
    ensures forall i | 0 <= i < |ps| :: vs[i] == ps[i].value
  {
    seq(|ps|, i requires 0 <= i < |ps| => ps[i].value)
  }

  /** w is v multiplied by some scalar: a column rescaled on its own. */
  ghost predicate IsRescaling(v: seq<real>, w: seq<real>) {
    exists c: real :: w == Scale(v, c)
  }

  /**
   * The number handed to the square root for a pair: the eigenvalue for
   * GLEE, the degree-weighted norm v^T D v for the classical eigenmap.
   */
  function SqrtArgument(variant: Method, p: EigenPair, degrees: seq<real>): real
    requires variant == Eigen ==> |p.vector| == |degrees|
  {
    match variant
    case Glee => p.value
    case Eigen => DegreeForm(p.vector, degrees)
  }

  /**
   * The factor a kept vector is multiplied by: sqrt of the value for GLEE,
   * 1 / sqrt(v^T D v) for the classical eigenmap.
   */
  function ScaleFactor(variant: Method, p: EigenPair, degrees: seq<real>, num: Numerics): real
    requires variant == Eigen ==> |p.vector| == |degrees|
  {
    match variant
    case Glee => num.sqrt(SqrtArgument(variant, p, degrees))
    case Eigen => num.invSqrt(SqrtArgument(variant, p, degrees))
  }

  /**
   * GLEE keeps every pair and scales its vector by the square root of its
   * value; the classical eigenmap drops the first pair returned (whatever its
   * value) and divides each remaining vector by the square root of its
   * degree-weighted norm. Either way pair i of the result comes from pair
   * i + Dropped(variant) of the input, with the same value and a rescaled
   * vector of the same length.
   */
  function PostProcess(variant: Method, cleaned: seq<EigenPair>, degrees: seq<real>, num: Numerics)
    : (post: seq<EigenPair>)
    requires |cleaned| >= Dropped(variant)
    requires variant == Eigen ==> forall i | 0 <= i < |cleaned| :: |cleaned[i].vector| == |degrees|
    ensures |post| == |cleaned| - Dropped(variant)
    ensures forall i | 0 <= i < |post| ::
              && post[i].value == cleaned[i + Dropped(variant)].value
              && |post[i].vector| == |cleaned[i + Dropped(variant)].vector|
              && IsRescaling(cleaned[i + Dropped(variant)].vector, post[i].vector)
    ensures variant == Glee ==>
              forall i | 0 <= i < |post| :: post[i].vector == Scale(cleaned[i].vector, num.sqrt(cleaned[i].value))
    ensures variant == Eigen ==>
              forall i | 0 <= i < |post| ::
                post[i].vector == Scale(cleaned[i + 1].vector, num.invSqrt(DegreeForm(cleaned[i + 1].vector, degrees)))
  {
    var d := Dropped(variant);
    var kept := cleaned[d..];
    var post := seq(|kept|, i requires 0 <= i < |kept| =>
      EigenPair(kept[i].value, Scale(kept[i].vector, ScaleFactor(variant, kept[i], degrees, num))));
    assert forall i | 0 <= i < |post| :: IsRescaling(cleaned[i + d].vector, post[i].vector) by {
      forall i | 0 <= i < |post| ensures IsRescaling(cleaned[i + d].vector, post[i].vector) {
        assert post[i].vector == Scale(cleaned[i + d].vector, ScaleFactor(variant, kept[i], degrees, num));
      }
    }
    post
  }

  /**
   * After the clean-up, every number the post-processing takes a square root
   * of is non-negative: the eigenvalues by the absolute value, the degree
   * norms because no degree of a non-negative adjacency matrix is negative.
   */
  lemma SqrtArgumentsNonNegative(variant: Method, a: Matrix, raw: seq<EigenPair>)
    requires IsSquare(a)
    requires variant == Eigen ==> IsNonNegative(a)
    requires variant == Eigen ==> forall i | 0 <= i < |raw| :: |raw[i].vector| == |a|
    ensures forall i | 0 <= i < |raw| :: SqrtArgument(variant, Cleanup(raw)[i], DegreeVector(a)) >= 0.0
  {
    var c := Cleanup(raw);
    var d := DegreeVector(a);
    if variant == Eigen {
      DegreesNonNegative(a);
      forall i | 0 <= i < |raw| ensures DegreeForm(c[i].vector, d) >= 0.0 {
        DegreeFormNonNegative(c[i].vector, d);
      }
    }
  }

  // ---------------------------------------------------------------------
  // The pipeline

  /** What Eigenmaps asks of its inputs once the dimension has been accepted. */
  ghost predicate Admissible(a: Matrix, dim: int, variant: Method, num: Numerics) {
    && IsSquare(a)
    && ValidDim(dim, |a|)
    && SolverContract(num.solve)
    && (variant == Eigen ==> NoIsolatedNodes(a))
  }

  /** The raw eigenpairs: the plan's solver run on the plan's target matrix. */
  function Solved(a: Matrix, dim: nat, variant: Method, num: Numerics): (raw: seq<EigenPair>)
    requires Admissible(a, dim, variant, num)
    ensures |raw| == Requested(PlanFor(variant, dim, |a|).solver, |a|)
    ensures forall i | 0 <= i < |raw| :: |raw[i].vector| == |a|
  {
    var plan := PlanFor(variant, dim, |a|);
    num.solve(TargetMatrix(plan.target, a), plan.solver)
  }

  /**
   * The post-processed eigenpairs: solve the target matrix the plan names,
   * clean up the values, post-process. There are exactly dim of them in the
   * partial branch and n (GLEE) or n - 1 (classical) in the full branch.
   * Pair i is raw pair i (GLEE) or i + 1 (classical, the first returned pair
   * dropped), with the absolute value of its eigenvalue and a rescaled vector.
   */
  function Spectrum(a: Matrix, dim: nat, variant: Method, num: Numerics): (post: seq<EigenPair>)
    requires Admissible(a, dim, variant, num)
    ensures |post| >= dim
    ensures |post| == if IsFull(dim, |a|) then |a| - Dropped(variant) else dim
    ensures forall i | 0 <= i < |post| :: post[i].value >= 0.0 && |post[i].vector| == |a|
    ensures |Solved(a, dim, variant, num)| == |post| + Dropped(variant)
    ensures forall i | 0 <= i < |post| ::
              && post[i].value == Abs(Solved(a, dim, variant, num)[i + Dropped(variant)].value)
              && IsRescaling(Solved(a, dim, variant, num)[i + Dropped(variant)].vector, post[i].vector)
  {
    PlanLeavesEnoughPairs(variant, dim, |a|);
    var raw := Solved(a, dim, variant, num);
    PostProcess(variant, Cleanup(raw), DegreeVector(a), num)
  }

  /** Every eigenvalue kept is non-negative. */
  predicate NonNegativeValues(values: seq<real>) {
    forall j | 0 <= j < |values| :: values[j] >= 0.0
  }

  /**
   * The order the embedding lists its columns in: non-increasing values for
   * GLEE, non-decreasing for the classical eigenmap.
   */
  predicate InRankOrder(values: seq<real>, variant: Method) {
    && (variant == Glee ==> forall j, k | 0 <= j < k < |values| :: values[j] >= values[k])
    && (variant == Eigen ==> forall j, k | 0 <= j < k < |values| :: values[j] <= values[k])
  }

  /** The value of each embedding column and the N x dim matrix of the columns. */
  datatype Embedding = Embedding(vectors: Matrix, values: seq<real>)

  /**
   * Rank the post-processed pairs (descending values for GLEE, ascending
   * for the classical eigenmap), keep the first dim, and lay their vectors
   * out as the columns of an N x dim matrix.
   */
  function Embed(a: Matrix, dim: nat, variant: Method, num: Numerics): (e: Embedding)
    requires Admissible(a, dim, variant, num)
    ensures |e.values| == dim
    ensures |e.vectors| == |a| && forall i | 0 <= i < |a| :: |e.vectors[i]| == dim
    ensures NonNegativeValues(e.values)
    ensures InRankOrder(e.values, variant)
  {
    Rank(Spectrum(a, dim, variant, num), variant, dim, |a|)
  }

  /** The ranking and truncation step on its own, for any n-vector pairs. */
  function Rank(post: seq<EigenPair>, variant: Method, dim: nat, n: nat): (e: Embedding)
    requires dim <= |post|
    requires forall k | 0 <= k < |post| :: post[k].value >= 0.0 && |post[k].vector| == n
    ensures |e.values| == dim
    ensures |e.vectors| == n
    ensures forall i | 0 <= i < n :: |e.vectors[i]| == dim
    ensures NonNegativeValues(e.values)
    ensures InRankOrder(e.values, variant)
  {
    var sel := Select(Values(post), variant == Glee, dim);
    AssembleInOrder(post, sel, n, variant);
    Assemble(post, sel, n)
  }

  /**
   * The columns of distinct ranked indices: as many values as indices, each
   * non-negative, listed in the order of the indices.
   */
  lemma AssembleInOrder(post: seq<EigenPair>, sel: seq<nat>, n: nat, variant: Method)
    requires forall k | 0 <= k < |post| :: post[k].value >= 0.0 && |post[k].vector| == n
    requires variant == Glee ==> Descending(Values(post), sel)
    requires variant == Eigen ==> Ascending(Values(post), sel)
    ensures NonNegativeValues(Assemble(post, sel, n).values)
    ensures InRankOrder(Assemble(post, sel, n).values, variant)
  {
    var vals := Values(post);
    var e := Assemble(post, sel, n);
    assert forall j | 0 <= j < |sel| :: e.values[j] == vals[sel[j]];
  }

  /** The columns sel picks from post, as an n x |sel| matrix and its values. */
  function Assemble(post: seq<EigenPair>, sel: seq<nat>, n: nat): (e: Embedding)
    requires forall j | 0 <= j < |sel| :: sel[j] < |post|
    requires forall k | 0 <= k < |post| :: |post[k].vector| == n
    ensures |e.values| == |sel| && |e.vectors| == n
    ensures forall j | 0 <= j < |sel| :: e.values[j] == post[sel[j]].value
    ensures forall i | 0 <= i < n :: |e.vectors[i]| == |sel|
    ensures forall i, j | 0 <= i < n && 0 <= j < |sel| :: e.vectors[i][j] == post[sel[j]].vector[i]
  {
    Embedding(
      seq(n, i requires 0 <= i < n => seq(|sel|, j requires 0 <= j < |sel| => post[sel[j]].vector[i])),
      seq(|sel|, j requires 0 <= j < |sel| => post[sel[j]].value))
  }

  /** Column j of e is the vector of pair sel[j] of post, and value j its value. */
  ghost predicate Picks(post: seq<EigenPair>, sel: seq<nat>, n: nat, e: Embedding) {
    && |e.values| == |sel|
    && |e.vectors| == n
    && (forall j | 0 <= j < |sel| :: sel[j] < |post| && e.values[j] == post[sel[j]].value)
    && (forall i | 0 <= i < n :: |e.vectors[i]| == |sel|)
    && (forall i, j | 0 <= i < n && 0 <= j < |sel| ::
          sel[j] < |post| && i < |post[sel[j]].vector| && e.vectors[i][j] == post[sel[j]].vector[i])
  }

  /** sel picks dim distinct pairs of post and no pair left out ranks ahead of one kept. */
  ghost predicate RankedSelection(post: seq<EigenPair>, sel: seq<nat>, variant: Method, dim: nat) {
    && |sel| == dim
    && InBounds(Values(post), sel)
    && Distinct(sel)
    && (variant == Glee ==>
         forall j, k | 0 <= j < dim && 0 <= k < |post| && k !in sel :: post[sel[j]].value >= post[k].value)
    && (variant == Eigen ==>
         forall j, k | 0 <= j < dim && 0 <= k < |post| && k !in sel :: post[sel[j]].value <= post[k].value)
  }

  /**
   * The ranking is a ranked selection of the post-processed pairs: column
   * j is the vector of pair sel[j] and value j its value, for dim distinct
   * indices sel; GLEE keeps the dim largest values and the classical
   * eigenmap the dim smallest of those left after dropping the first pair.
   */
  lemma RankIsRankedSelection(post: seq<EigenPair>, variant: Method, dim: nat, n: nat)
    requires dim <= |post|
    requires forall k | 0 <= k < |post| :: post[k].value >= 0.0 && |post[k].vector| == n
    ensures exists sel: seq<nat> ::
              RankedSelection(post, sel, variant, dim) && Picks(post, sel, n, Rank(post, variant, dim, n))
  {
    var sel := Select(Values(post), variant == Glee, dim);
    RankIsAssemble(post, variant, dim, n);
    SelectIsRankedSelection(post, variant, dim);
    assert Picks(post, sel, n, Rank(post, variant, dim, n));
  }

  lemma RankIsAssemble(post: seq<EigenPair>, variant: Method, dim: nat, n: nat)
    requires dim <= |post|
    requires forall k | 0 <= k < |post| :: post[k].value >= 0.0 && |post[k].vector| == n
    ensures Rank(post, variant, dim, n) == Assemble(post, Select(Values(post), variant == Glee, dim), n)
  {
  }

  lemma SelectIsRankedSelection(post: seq<EigenPair>, variant: Method, dim: nat)
    requires dim <= |post|
    ensures RankedSelection(post, Select(Values(post), variant == Glee, dim), variant, dim)
  {
    var vals := Values(post);
    var sel := Select(vals, variant == Glee, dim);
    SelectRanksAhead(vals, variant == Glee, dim);
    forall j, k | 0 <= j < dim && 0 <= k < |post| && k !in sel
      ensures variant == Glee ==> post[sel[j]].value >= post[k].value
      ensures variant == Eigen ==> post[sel[j]].value <= post[k].value
    {
      assert vals[sel[j]] == post[sel[j]].value && vals[k] == post[k].value;
    }
  }

  /** The same, end to end: the embedding ranks and truncates the post-processed pairs. */
  lemma EmbeddingIsRankedSelection(a: Matrix, dim: nat, variant: Method, num: Numerics)
    requires Admissible(a, dim, variant, num)
    ensures var post := Spectrum(a, dim, variant, num);
            exists sel: seq<nat> ::
              RankedSelection(post, sel, variant, dim) && Picks(post, sel, |a|, Embed(a, dim, variant, num))
  {
    RankIsRankedSelection(Spectrum(a, dim, variant, num), variant, dim, |a|);
  }

  /**
   * The embedding of the graph with adjacency matrix a: an error exactly when
   * dim lies outside [2, N - 1]; otherwise an N x dim matrix, together with
   * its dim non-negative eigenvalues (non-increasing for GLEE, non-decreasing
   * for the classical eigenmap) when they are asked for.
   */
  function Eigenmaps(a: Matrix, dim: int, variant: Method, returnVals: bool, num: Numerics)
    : (r: Result<Output>)
    requires IsSquare(a)
    requires SolverContract(num.solve)
    requires variant == Eigen && ValidDim(dim, |a|) ==> NoIsolatedNodes(a)
    ensures r.Err? <==> dim < 2 || dim > |a| - 1
    ensures r.Ok? ==> (r.value.VectorsAndValues? <==> returnVals)
    ensures r.Ok? ==> |r.value.vectors| == |a|
    ensures r.Ok? ==> forall i | 0 <= i < |a| :: |r.value.vectors[i]| == dim
    ensures r.Ok? ==> r.value.vectors == Embed(a, dim, variant, num).vectors
    ensures r.Ok? && returnVals ==> r.value.values == Embed(a, dim, variant, num).values
    ensures r.Ok? && returnVals ==>
              && |r.value.values| == dim
              && NonNegativeValues(r.value.values)
              && InRankOrder(r.value.values, variant)
  {
    if dim > |a| - 1 || dim < 2 then
      Err(InvalidDimension)
    else
      var e := Embed(a, dim, variant, num);
      if returnVals then Ok(VectorsAndValues(e.vectors, e.values)) else Ok(Vectors(e.vectors))
  }
}
