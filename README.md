# GLEE: Geometric Laplacian Eigenmap Embedding, modelled in Dafny

This project models the core of `glee.py`. That core embeds a graph of N nodes into `dim` dimensions using its Laplacian spectrum. There are two variants:

- **GLEE** keeps the eigenpairs of L = D − A with the largest eigenvalues. It scales each eigenvector by the square root of its eigenvalue.
- **The classical Laplacian eigenmap** works on D⁻¹L. It drops the first eigenpair the solver returns, and divides each remaining vector by √(vᵀDv). It keeps the smallest eigenvalues.

The model is pure: datatypes, functions and lemmas over exact `real`s. Like the source, it has no mutable state. It is split into four modules:

- `GraphMatrices` (`laplacian.dfy`) covers `laplacian_degrees`:
  - the degree matrix D and the Laplacian L = D − A;
  - the degree-normalised Laplacian D⁻¹L;
  - the degree form vᵀDv;
  - facts about row sums, symmetry and signs.
- `Ranking` (`ranking.dfy`) covers the argsort of the eigenvalues, its reversal for GLEE, and truncation to the first `dim` indices. The argsort is an insertion sort over indices. Its contract promises only a permutation that orders the values, and nothing else relies on how ties are broken.
- `GleeEmbedding` (`eigenmaps.dfy`) covers `eigenmaps`:
  - the validation of `dim`;
  - the four-way choice of target matrix and eigensolver;
  - the absolute-value clean-up;
  - the variant-specific post-processing;
  - the ranking and assembly of the N × dim embedding;
  - the optional return of the eigenvalues.
- `Scenarios` (`scenarios.dfy`) has worked instances: the `dim` boundary for N = 5, and the path graph 0–1–2–3 under both variants.

The eigensolvers (`numpy.linalg.eigh`/`eig`, `scipy.sparse.linalg.eigsh`/`eigs`) and the floating-point square roots are foreign code. They are the fields of a `Numerics` value. The model assumes only that a solver returns as many pairs as it is asked for (N for a dense one, `k` for a sparse one), each with a vector of length N (`GleeEmbedding.SolverContract`).

The model follows what the code does, also where its docstrings and comments (`glee.py:16`, `glee.py:52-53`, `glee.py:75-77`) suggest otherwise:

- The classical eigenmap drops the pair at index 0 of the solver's output (`vals[1:]`, `vecs[:, 1:]`). This is the pair returned first, which is not necessarily the one with the smallest eigenvalue.
- `np.argsort` is not a stable sort. The model therefore promises an order on the values but no particular order among equal values.
- The dimension check rejects `dim < 2` (its error message reads "dim must be grater than 0 and less than graph.order()"). It also rejects `dim > N - 1`, so N = 5 with `dim = 4` is accepted.
- `invdegs` (`1 / degs.diagonal()`) is computed on every call, even for GLEE. The model requires that no node is isolated only where D⁻¹L is actually used, which is the classical eigenmap with an accepted `dim`.

## Model

| member | source | states |
|---|---|---|
| GraphMatrices.LaplacianDegrees | glee.py:15-19 | returns (L, D) with D diagonal and D[i][i] the sum of row i of A, L[i][j] = D[i][j] − A[i][j], every row of L summing to 0, L symmetric when A is, D non-negative when A is |
| GraphMatrices.LaplacianRowSumIsZero | glee.py:18-19 | row i of L sums to 0 |
| GraphMatrices.LaplacianRowsSumToZero | glee.py:18-19 | every row of L sums to 0 |
| GraphMatrices.LaplacianSymmetric | glee.py:19 | L is symmetric whenever A is |
| GraphMatrices.DegreesNonNegative | glee.py:18 | D has no negative entry when A has none |
| GraphMatrices.NormalizedLaplacian | glee.py:59-60 | D⁻¹L (defined only without isolated nodes) is N × N, row i is row i of L scaled by 1/deg(i), and every row sums to 0 |
| GraphMatrices.NormalizedRow | glee.py:43 | a row of D⁻¹L has N entries and sums to 0 |
| GraphMatrices.NormalizedLaplacianTimesDegree | glee.py:43 | D(D⁻¹L) = L entry by entry: (D⁻¹L)[i][j] · deg(i) = L[i][j] |
| GraphMatrices.DegreeFormNonNegative | glee.py:67 | vᵀDv ≥ 0 when no degree is negative, so its square root is real |
| Ranking.InsertPosition | glee.py:81 | the insertion point of an index: every value before it is ≤, the value at it is > |
| Ranking.Insert | glee.py:81 | inserting an index into an ascending index list keeps it ascending, adds exactly that index (multiset) and keeps the indices distinct |
| Ranking.SortPrefix | glee.py:81 | the argsort of the first n values is a permutation of 0..n−1 in ascending order of value |
| Ranking.InsertExtendsPermutation | glee.py:81 | inserting n − 1 into a permutation of 0..n−2 gives a permutation of 0..n−1 |
| Ranking.Argsort | glee.py:81 | `np.argsort`: a permutation of the indices, in ascending order of value |
| Ranking.ReversedDescends | glee.py:82 | reversing an ascending permutation gives a descending permutation |
| Ranking.RankOrder | glee.py:81-82 | a permutation of the indices, descending for GLEE and ascending otherwise |
| Ranking.Select | glee.py:81-83 | the first `dim` ranked indices: `dim` distinct in-range indices, in rank order |
| Ranking.SelectRanksAhead | glee.py:81-83 | no index left out ranks ahead of one kept: the `dim` largest values for a descending order, the `dim` smallest for an ascending one |
| Ranking.PrefixKeepsOrder | glee.py:83 | a prefix of a ranking order is distinct and still ordered |
| Ranking.PrefixRanksAhead | glee.py:83 | every index beyond the prefix ranks no better than any index in it |
| GleeEmbedding.PlanFor | glee.py:45-73 | `is_full` is `dim > N − 3`; GLEE uses L with a symmetric solver asking for `dim` largest-magnitude pairs, the classical eigenmap uses D⁻¹L with a general solver asking for `dim + 1` smallest-magnitude pairs; a full solver returns all N |
| GleeEmbedding.PlanLeavesEnoughPairs | glee.py:48-55 | in each of the four branches at least `dim` pairs survive the drop of the post-processing, exactly `dim` in a partial branch, which never asks for more than N − 2 pairs |
| GleeEmbedding.TargetMatrix | glee.py:57-61 | the matrix handed to the solver is L for GLEE and D⁻¹L for the classical eigenmap; its rows sum to 0 |
| GleeEmbedding.Cleanup | glee.py:78 | `np.abs(vals.real)`: same count, every value non-negative and equal to ± the raw value, vectors unchanged |
| GleeEmbedding.SqrtArgumentsNonNegative | glee.py:75-78 | after the clean-up every square-root argument is non-negative: the eigenvalues for GLEE, vᵀDv for the classical eigenmap when A is non-negative |
| GleeEmbedding.PostProcess | glee.py:62-69 | pair i comes from cleaned pair i (GLEE) or i + 1 (classical, index 0 dropped) with the same value; its vector is that vector times √value (GLEE) or 1/√(vᵀDv) (classical) |
| GleeEmbedding.Solved | glee.py:71-74 | the plan's solver, run on the plan's target matrix, returns N pairs (dense) or the number asked for (sparse), each with a vector of length N |
| GleeEmbedding.Spectrum | glee.py:62-79 | the post-processed pairs number N (GLEE) or N − 1 (classical) in the full branch and exactly `dim` in the partial one, always ≥ `dim`; pair i is the solver's pair i (GLEE) or i + 1 (classical, the first returned pair dropped), with the absolute value of its eigenvalue and its vector rescaled by a factor; values ≥ 0, vectors of length N |
| GleeEmbedding.Rank | glee.py:81-84 | the embedding is N × `dim` with `dim` non-negative values, non-increasing for GLEE and non-decreasing for the classical eigenmap |
| GleeEmbedding.AssembleInOrder | glee.py:83-84 | columns assembled in a ranked order of indices list their values in that order, all non-negative |
| GleeEmbedding.SelectIsRankedSelection | glee.py:81-83 | the selected indices are `dim` distinct pairs, and no pair left out has a larger (GLEE) or smaller (classical) value than one kept |
| GleeEmbedding.RankIsRankedSelection | glee.py:81-84 | the ranking picks a ranked selection of the pairs, and column j and value j are the vector and value of the j-th selected pair |
| GleeEmbedding.Embed | glee.py:71-84 | the embedding of an accepted `dim` is N × `dim` with `dim` non-negative, ranked values |
| GleeEmbedding.EmbeddingIsRankedSelection | glee.py:71-84 | end to end, the embedding's columns are the vectors of the `dim` top-ranked post-processed pairs |
| GleeEmbedding.Eigenmaps | glee.py:38-85 | an `InvalidDimension` error exactly when `dim < 2` or `dim > N − 1`; otherwise the vectors of the ranked embedding (`Embed`, the `dim` top-ranked post-processed pairs) as an N × `dim` matrix, with its `dim` non-negative ranked eigenvalues exactly when they are asked for |
| Scenarios.OrderFiveBoundary | glee.py:38-39 | for N = 5, `dim` = 4 is accepted and 5, 1 and 0 are rejected, for either variant (no isolated node needed for GLEE) |
| Scenarios.PathFourLaplacian | glee.py:15-19 | the path 0–1–2–3 has degrees 1, 2, 2, 1 and the tridiagonal Laplacian |
| Scenarios.PathFourPlans | glee.py:71-73 | for N = 4 and `dim` = 2 both variants use the full dense decomposition |
| Scenarios.PathFourGleeKeepsTwoLargest | glee.py:81-84 | GLEE on values 0, x, 2, y (0 < x < 2 < y) keeps the values y, 2 in that order |
| Scenarios.PathFourEigenKeepsTwoSmallest | glee.py:65-84 | the classical eigenmap on values 0, x, 2, y drops the first pair and keeps x, 2 in that order |
| Scenarios.EigenKeepsTwoSmallest | glee.py:81-84 | ranking three pairs with values u < v < w ascending keeps u, v |
| Scenarios.SpectrumOfFour | glee.py:62-79 | for N = 4, `dim` = 2, a solver returning non-negative values gives post-processed pairs with those values, the first dropped for the classical eigenmap |
| Scenarios.PathFourGleeEndToEnd | glee.py:38-85 | `eigenmaps` on the path, GLEE, `dim` = 2, `return_vals`, with a dense symmetric solver returning 0, x, 2, y: accepted, values y, 2 |
| Scenarios.PathFourEigenDropsFirstReturned | glee.py:38-85 | `eigenmaps` on the path, classical, `dim` = 2, `return_vals`, with a dense general solver returning x, 0, 2, y: the first returned pair (x) is dropped although it is not the zero eigenvalue, and the values kept are 0, 2 |

## Left out

- The eigensolvers (`eigh`, `eig`, `eigsh`, `eigs`) are foreign numerical code. They are a parameter. The model assumes only the count and the length of what they return, and nothing about the numerical accuracy, convergence failures or orthogonality of the eigenvectors.
- `.real` of a complex result is not modelled: eigenvalues and vectors are real from the start.
- Floating point is not modelled. `np.sqrt` and `1/np.sqrt` are uninterpreted `Numerics` fields, so NaN or infinity from a zero or negative argument are not represented.
- GleeEmbedding.Eigenmaps: requires that no node is isolated on the classical path with an accepted `dim`. The source divides by zero there and carries on with infinities.
- Ranking.Argsort: promises a permutation in ascending order of value, but not NumPy's particular placement of equal values.
- The `dim is None` case of `is_full` is unreachable after the dimension check (`None > int` raises in Python 3), so it is not modelled.
- The conversion from a networkx graph to a sparse adjacency matrix is out of scope (`nx.to_scipy_sparse_matrix`). The model starts from the adjacency matrix as a square matrix of reals.
- Dense and sparse storage (`lapl.A` versus `lapl`) are the same matrix in the model.
- `main` and the command-line parser are not part of this model. They cover file I/O, `np.save` and an edge-list reader; `main` also passes `method` and `dim` in swapped positions.
