# Dual kernel operator regression (kooplearn) in Dafny

This project models the decision and bookkeeping layer of kooplearn's dual,
kernel-space operator regression, `kooplearn/_src/operator_regression/dual.py`.
The estimators learn a finite-rank approximation of a Koopman/transfer
operator from kernel Gram matrices. They return two projection matrices
`U` and `V`. The rest of the module reads predictions, eigenpairs, modes,
singular values and a risk estimate off those two matrices.

The model covers:

- **Regularization.** `regularize(M, reg, inplace)` adds `n * reg` to the
  diagonal, either into a fresh matrix or into `M` itself. The in-place form
  is a method on a two-dimensional array, and the copying form returns a
  fresh array. Both are proved equal to one specification function.
- **ReducedRankRegression.** This covers `fit_reduced_rank_regression`
  around its eigensolver:
  - the generalized eigenproblem and the number of pairs requested;
  - the filter, which sorts by decreasing magnitude, stops at the first
    invalid value, caps the kept values at the rank, logs the "discarded
    dimensions" warning, asserts that the eigenvectors are real, takes real
    parts, and logs the overfitting warning;
  - the normalisation of the kept eigenvectors.
- **PrincipalComponentRegression.** This covers
  `fit_principal_component_regression`: the default rank, the rank
  assertion, the solver dispatch and the identical `U` and `V`.
- **NystroemRegression.** This covers the two Nystroem fits:
  - the symmetrised left-hand side and the regularized right-hand side;
  - the solver dispatch;
  - putting the pivoted QR columns back in order with
    `argsort(columns_permutation)`;
  - zero-padding to the rank, with its warning.
- **Prediction.** `predict` is the transition matrix raised to the power
  `num_steps - 1`, placed between two fixed factors.
- **EstimatorEig.** `estimator_eig` sorts the eigenvalues and left vectors,
  then normalises the right and left eigenvectors. A zero norm gives a zero
  reciprocal.
- **SpectralReadouts.** This covers `evaluate_eigenfunction`,
  `estimator_modes` (outer products), and `svdvals` (clipping negative real
  parts before the square root).
- **Risk.** `estimator_risk` is a sum of three trace terms.

Matrices are exact: `real` and `Complex(re, im)` in place of float64 and
complex128. A matrix is a `Mat(rows, cols, e)` value whose shape is kept
even when a dimension is 0.

Exceptions become values of `Outcomes.Result`:

| Source | Model |
|---|---|
| `assert` | `AssertionError` |
| unknown `svd_solver` | `ValueError` |
| arithmetic on a missing rank | `TypeError` |
| `0 ** -0.5` and `0 ** -1` | `ZeroDivisionError` |

Logged warnings are returned as a list of `Outcomes.Warning` values, in the
order they are logged. An `Outcomes.Logged` value carries them next to the
result, so a warning logged before a failing assertion is still returned.

Several things the code calls are not part of the model. Their results are
parameters of the model's operations:

- the eigensolvers (`eig`, `eigs`, `eigh`, `eigsh`);
- `lstsq`;
- `modified_QR`, `_rank_reveal`, `weighted_norm`, `topk` and
  `fuzzy_parse_complex`.

Irrational scalings are parameters too:

- `s` stands for `n ** -0.5`;
- `sqrtDim` stands for `sqrt(dim)`;
- `sqrt` stands for the square root.

Lemmas such as `Prediction.PredictClosedForm` and
`ReducedRankRegression.RrrPencilOperator` state what follows when
`s * s == 1/n`.

## Model

| member | source | states |
|---|---|---|
| Regularization.Regularized | kooplearn/_src/operator_regression/dual.py:25-26 | every diagonal entry grows by `n * reg`, and every off-diagonal entry is unchanged |
| Regularization.RegularizedZero | kooplearn/_src/operator_regression/dual.py:26 | a zero regularization returns a matrix equal to `M` |
| Regularization.RegularizedTwice | kooplearn/_src/operator_regression/dual.py:26 | regularizing by `a` then by `b` is regularizing by `a + b` |
| Regularization.RegularizedSymmetric | kooplearn/_src/operator_regression/dual.py:26 | a symmetric kernel matrix stays symmetric |
| Regularization.RegularizedCharacterized | kooplearn/_src/operator_regression/dual.py:23-26 | any matrix that differs from `M` by exactly `n * reg` on the diagonal and nowhere else is the regularized matrix, so the in-place and copying forms agree |
| Regularization.AddToDiagonal | kooplearn/_src/operator_regression/dual.py:24 | each diagonal entry gains the shift, and every other entry keeps its old value |
| Regularization.RegularizeInPlace | kooplearn/_src/operator_regression/dual.py:23-24 | the array's new contents are the regularized old contents; it modifies only `M` and returns nothing |
| Regularization.RegularizeCopy | kooplearn/_src/operator_regression/dual.py:25-26 | a fresh array, of the same shape, holding the regularized contents of `M`; `M` is not modified |
| FitParameters.MaxReal | kooplearn/_src/operator_regression/dual.py:39 | the larger of the two: at least each argument, and equal to one of them (`max(eps, tikhonov_reg)`) |
| FitParameters.ArnoldiCount | kooplearn/_src/operator_regression/dual.py:46 | exactly `min(rank + 3, dim)`: at most each of the two and equal to one of them, so never more than the dimension and never fewer than the rank when the rank fits |
| ReducedRankRegression.RrrPencil | kooplearn/_src/operator_regression/dual.py:38-49 | ZeroDivisionError exactly when there are no training points; otherwise `M` is `K_X` with `n * max(eps, tikhonov_reg)` added to its diagonal, "arnoldi" asks eigs for `min(rank + 3, n)` pairs, and every other tag takes the dense eig |
| ReducedRankRegression.RrrPencilOperator | kooplearn/_src/operator_regression/dual.py:40 | with `s * s == 1/n`, `A == (1/n) K_Y K_X` |
| ReducedRankRegression.MagnitudeOrder | kooplearn/_src/operator_regression/dual.py:52-54 | the sort order is a permutation of the indices |
| ReducedRankRegression.MagnitudeOrderDescending | kooplearn/_src/operator_regression/dual.py:52-53 | the sorted values are the input rearranged, with magnitudes non-increasing |
| ReducedRankRegression.FirstInvalid | kooplearn/_src/operator_regression/dual.py:56-62 | the first index whose value has a negative real part or a non-zero imaginary part, or the length when there is none (`np.argmax` of the mask) |
| ReducedRankRegression.RetainedCount | kooplearn/_src/operator_regression/dual.py:59-72 | the number kept is exactly `min(first_invalid, rank)` on both branches, `first_invalid` being the length when no value is invalid; it never exceeds the rank or the number of values |
| ReducedRankRegression.RetainedPrefixIsValid | kooplearn/_src/operator_regression/dual.py:56-72 | every kept value is real and non-negative; no value at or after an invalid one is kept; when fewer than `rank` values are kept, the next value is invalid |
| ReducedRankRegression.AllValidKeepsRankPrefix | kooplearn/_src/operator_regression/dual.py:70-72 | when every value is valid, the first `min(len, rank)` are kept |
| ReducedRankRegression.CountBelow | kooplearn/_src/operator_regression/dual.py:81-83 | the number of kept values whose `abs(value)` is below `tikhonov_reg`, as the size of the set of their indices; at most the number kept, and 0 exactly when every kept `abs(value)` is at least `tikhonov_reg` |
| ReducedRankRegression.RetainedVectors | kooplearn/_src/operator_regression/dual.py:54 | column `j` of the result is the eigenvector of the `j`-th sorted value |
| ReducedRankRegression.DiscardedWarnings | kooplearn/_src/operator_regression/dual.py:65-69 | at most one warning, present exactly when some value is invalid and the first invalid index is below the rank; it reports `len - first_invalid` discarded dimensions of the `rank` requested |
| ReducedRankRegression.OverfitWarnings | kooplearn/_src/operator_regression/dual.py:81-84 | at most one warning, present exactly when some kept `abs(value)` is below `tikhonov_reg`; it reports how many are, out of how many kept, and `tikhonov_reg` |
| ReducedRankRegression.FilterWarnings | kooplearn/_src/operator_regression/dual.py:65-84 | at most two warnings, and when there are two the discarded-dimensions warning comes before the overfitting warning |
| ReducedRankRegression.FilterEigenpairs | kooplearn/_src/operator_regression/dual.py:51-84 | fails the assertion exactly when a kept eigenvector has a non-zero imaginary part, and then still returns the discarded-dimensions warning logged before the assertion; otherwise returns the sorted values, the real parts (`ComplexNumbers.RealParts`, one per value, in order) of the kept values and vectors, and both warnings in logging order |
| ReducedRankRegression.FilterKeepsLargestPairs | kooplearn/_src/operator_regression/dual.py:51-79 | on success, kept value `j` is the real part of input value `p[j]` (p being the magnitude order), which is real and non-negative, and column `j` is that value's eigenvector, which is real |
| ReducedRankRegression.DiscardedWarningExactly | kooplearn/_src/operator_regression/dual.py:65-69 | the "discarded dimensions" warning is logged exactly when `first_invalid < rank`, reporting `len - first_invalid` discarded out of `rank` |
| ReducedRankRegression.FilterLogsDiscardedWarning | kooplearn/_src/operator_regression/dual.py:65-76 | whether or not the eigenvector assertion fails, the returned warnings hold a discarded-dimensions warning exactly when `first_invalid < rank`, and then it is the first warning, reporting `len - first_invalid` of `rank` |
| ReducedRankRegression.OverfitWarningExactly | kooplearn/_src/operator_regression/dual.py:81-84 | the overfitting warning is logged exactly when a kept value is below `tikhonov_reg` |
| ReducedRankRegression.ColumnNormsGiveUnitColumns | kooplearn/_src/operator_regression/dual.py:86-92 | the norms the fit computes (`ColumnNorms`: the square root of the column sum of `kv**2 + tikhonov_reg * kv * vecs * sqrt(n)`, with `kv = (s K_X) vecs`) make the normalisation succeed and give every column of `U` squared norm 1, whenever each squared norm is positive and `sqrt` is its square root |
| ReducedRankRegression.Normalize | kooplearn/_src/operator_regression/dual.py:92-93 | fails exactly when some norm is 0, naming that column; otherwise each column of `U` times its norm gives back the eigenvector, and `V == K_X U` |
| ReducedRankRegression.NormalizedColumnsHaveUnitNorm | kooplearn/_src/operator_regression/dual.py:86-92 | when every norm is the non-zero root of its column's squared norm, every column of `U` has squared norm 1 in the same geometry |
| ReducedRankRegression.ScaledByReciprocalNorms | kooplearn/_src/operator_regression/dual.py:87-92 | dividing both factors of the squared norm by the column's norm leaves squared norm 1 |
| ReducedRankRegression.FitReducedRankRegression | kooplearn/_src/operator_regression/dual.py:51-97 | the filter's warnings on every path; the assertion error of the filter, else the error of the normalisation, else `U`, `V` and every eigenvalue in magnitude order |
| PrincipalComponentRegression.PlanPrincipalComponentRegression | kooplearn/_src/operator_regression/dual.py:165-177 | the rank defaults to `dim`; a rank above `dim` fails the assertion before the solver is looked at; an unknown solver raises ValueError; eigsh gets exactly `min(rank + 3, dim)` pairs, which lies between `rank` and `dim`; `K_X` is regularized by `tikhonov_reg` |
| PrincipalComponentRegression.DefaultRankAccepted | kooplearn/_src/operator_regression/dual.py:167-169 | without a rank, a known solver always passes the checks, with rank `dim` |
| PrincipalComponentRegression.PcrProjections | kooplearn/_src/operator_regression/dual.py:179-180 | entry `(i, j)` is `sqrt(dim) * vectors[i, j] * rsqrt[j]`, and the two returned matrices are identical |
| PrincipalComponentRegression.FitPrincipalComponentRegression | kooplearn/_src/operator_regression/dual.py:165-180 | exactly the errors of the checks; on success `U == V` |
| NystroemRegression.SymmetrizedXYX | kooplearn/_src/operator_regression/dual.py:199-203 | the left-hand side is symmetric, with entry `(i, j)` equal to `(B[i, j] + B[j, i]) / 2` |
| NystroemRegression.GramSymmetric | kooplearn/_src/operator_regression/dual.py:206 | `kernel_Xnys^T kernel_Xnys` is symmetric |
| NystroemRegression.NystroemGram | kooplearn/_src/operator_regression/dual.py:206 | the right-hand side is square, and symmetric when `K_X` is |
| NystroemRegression.NystroemSolverCall | kooplearn/_src/operator_regression/dual.py:208-221 | "full" always proceeds; "arnoldi" without a rank raises TypeError and otherwise asks for exactly `min(rank + 3, dim)` pairs, at most `dim` and at least `rank` when the rank fits; any other tag raises ValueError |
| NystroemRegression.NystroemPencil | kooplearn/_src/operator_regression/dual.py:194-216 | the Gram matrix is built with `max(dim * eps, tikhonov_reg)` and then regularized by `dim * eps`; both sides are symmetric when `K_X` is |
| NystroemRegression.ArgSortInvertsPermutation | kooplearn/_src/operator_regression/dual.py:226 | the argsort of a permutation is its inverse, on both sides |
| NystroemRegression.ArgSortInts | kooplearn/_src/operator_regression/dual.py:226 | a permutation of the indices that lists the entries of `columns_permutation` in ascending order |
| NystroemRegression.RestoredPadded | kooplearn/_src/operator_regression/dual.py:226-233 | column `i` of `Q` lands in position `perm[i]`; the columns after `Q`'s are zero; the width is `max(Q.cols, rank)` |
| NystroemRegression.PaddingWarnings | kooplearn/_src/operator_regression/dual.py:227-231 | one warning, reporting `rank - width` ignored degrees of freedom, exactly when the width falls short of the rank |
| NystroemRegression.RestoreAndPad | kooplearn/_src/operator_regression/dual.py:226-234 | the restored and padded columns together with the padding warning; the width is exactly `rank` whenever padding happened |
| NystroemRegression.FitNystroemReducedRankRegression | kooplearn/_src/operator_regression/dual.py:194-237 | ValueError for an unknown solver; TypeError for a known solver without a rank; otherwise the eigenproblem together with `U = lstsq(...) W` and `V = tmp_YX W`, for the restored and padded `W` |
| NystroemRegression.FitNystroemPrincipalComponentRegression | kooplearn/_src/operator_regression/dual.py:254-277 | the solver dispatch's errors; on success a symmetric left-hand side and `K_X` regularized by `max(eps, tikhonov_reg)`; `U` and `V` are their factors scaled by `sqrt(dim)` and by `rsqrt` column by column |
| Prediction.Transition | kooplearn/_src/operator_regression/dual.py:321 | `T = (1/n) V^T K_YX U` is `r x r` |
| Prediction.Predict | kooplearn/_src/operator_regression/dual.py:307-323 | ZeroDivisionError exactly when there are no training points; otherwise an `n_init x p` matrix |
| Prediction.PowerIsIteration | kooplearn/_src/operator_regression/dual.py:322 | multiplying by `T^k` is applying `T` `k` times |
| Prediction.PredictIterates | kooplearn/_src/operator_regression/dual.py:319-323 | the forecast is `s K_Xin_X U` applied to `s V^T obs` advanced `num_steps - 1` times by `T` |
| Prediction.PredictOneStep | kooplearn/_src/operator_regression/dual.py:319-323 | a one-step forecast uses the identity power: `(s K_Xin_X U)(s V^T obs)` |
| Prediction.PredictComposes | kooplearn/_src/operator_regression/dual.py:322-323 | `T^(a+b) = T^a T^b`: a forecast `a + b` steps ahead splits at step `a` |
| Prediction.PredictClosedForm | kooplearn/_src/operator_regression/dual.py:317-323 | with `s * s == 1/n`, the forecast is `(1/n) K_Xin_X U T^(num_steps-1) V^T obs` |
| ComplexNumbers.SafeReciprocal | kooplearn/_src/operator_regression/dual.py:348 | 0 for a zero norm; otherwise the true reciprocal |
| ComplexNumbers.SafeCReciprocal | kooplearn/_src/operator_regression/dual.py:353 | 0 when `abs(z) == 0`; otherwise `z * r == 1` |
| EstimatorEig.OperatorMatrix | kooplearn/_src/operator_regression/dual.py:335 | `W_YX` is `r x r` |
| EstimatorEig.RightOrder | kooplearn/_src/operator_regression/dual.py:340 | a permutation that puts the eigenvalues in ascending numpy complex order (real part, then imaginary part) and rearranges nothing else |
| EstimatorEig.LeftOrder | kooplearn/_src/operator_regression/dual.py:342 | a permutation that puts the conjugated eigenvalues in ascending order |
| EstimatorEig.RightScales | kooplearn/_src/operator_regression/dual.py:346-348 | scale `j` times right norm `j` is 1, and scale `j` is 0 where the norm is 0 |
| EstimatorEig.LeftScales | kooplearn/_src/operator_regression/dual.py:353 | diagonal entry `j` times scale `j` is the complex 1, and scale `j` is 0 where the entry has magnitude 0 |
| EstimatorEig.SortedRight | kooplearn/_src/operator_regression/dual.py:340-349 | a matrix with the rows of `vr` and one column per eigenvalue; which vector lands in each column, and its scaling, are stated by `RightVectorsFollowValues` |
| EstimatorEig.SortedLeft | kooplearn/_src/operator_regression/dual.py:342-354 | entry `(i, j)` is `vl[i, l_perm[j]]` times the zero-guarded reciprocal of diagonal entry `j` of `vl[:, l_perm]^T W_YX vr` |
| EstimatorEig.NormalizedPairs | kooplearn/_src/operator_regression/dual.py:340-354 | the eigenvalues are ascending and a rearrangement of the input; the right vectors are the sorted and normalised `vr`, and the left vectors are the sorted `vl` normalised against those right vectors |
| EstimatorEig.EstimatorEigen | kooplearn/_src/operator_regression/dual.py:326-355 | ZeroDivisionError exactly when there are no training points; otherwise the sorted values, `V vl` and `U vr`, built from the sorted and normalised vectors |
| EstimatorEig.EigenvaluesSorted | kooplearn/_src/operator_regression/dual.py:340-343 | the returned eigenvalues are ascending in numpy's complex order and are the input values rearranged |
| EstimatorEig.RightVectorsFollowValues | kooplearn/_src/operator_regression/dual.py:340-349 | right vector `j` is the solver's vector for the `j`-th sorted eigenvalue, divided by its norm, or zero when the norm is 0 |
| EstimatorEig.NormalizedColumn | kooplearn/_src/operator_regression/dual.py:347-349 | a column with a zero norm becomes zero; any other column times its norm gives back the input column |
| EstimatorEig.LeftVectorsPairWithConjugates | kooplearn/_src/operator_regression/dual.py:340-343 | for a spectrum closed under conjugation, left vector `j` belongs to the conjugate of the `j`-th sorted eigenvalue |
| EstimatorEig.BiDiagScaled | kooplearn/_src/operator_regression/dual.py:352-354 | scaling column `j` of the left vectors by `c` scales diagonal entry `j` of `vl^T W vr` by `c` |
| EstimatorEig.Biorthogonal | kooplearn/_src/operator_regression/dual.py:352-354 | after normalisation, diagonal entry `j` of `vl^T W_YX vr` (`EstimatorEig.LeftNorms`) is 1, or 0 where the pairing vanished |
| SpectralReadouts.EvaluateEigenfunction | kooplearn/_src/operator_regression/dual.py:367-374 | ZeroDivisionError exactly when `K` has no columns; otherwise the real and imaginary parts are `s K v.re` and `s K v.im` |
| SpectralReadouts.EstimatorModes | kooplearn/_src/operator_regression/dual.py:358-364 | ZeroDivisionError exactly when there are no training points or `K_Xin_X` has no columns; otherwise the outer products (`SpectralReadouts.OuterProducts`, `m[k][i][j] = rv_in[i, k] * (t lv[j, k])`, shape `rank x n_init x n_train`) of the evaluated right eigenfunctions with the scaled left vectors |
| SpectralReadouts.ModesAreRankOne | kooplearn/_src/operator_regression/dual.py:362-364 | every mode is rank one: `m[k][i][j] m[k][i'][j'] == m[k][i][j'] m[k][i'][j]` |
| SpectralReadouts.CongruenceSymmetric | kooplearn/_src/operator_regression/dual.py:385-386 | `V^T K V` is symmetric when `K` is |
| SpectralReadouts.SvdOperator | kooplearn/_src/operator_regression/dual.py:384-387 | ZeroDivisionError exactly when there are no training points; otherwise two `r x r` factors, each symmetric when its kernel is |
| SpectralReadouts.Clipped | kooplearn/_src/operator_regression/dual.py:390 | every entry is non-negative; non-negative entries are kept and negative ones become 0 |
| SpectralReadouts.ClippedIdempotent | kooplearn/_src/operator_regression/dual.py:390 | clipping twice is clipping once |
| SpectralReadouts.ClipNegatives | kooplearn/_src/operator_regression/dual.py:390 | the array, changed in place, holds the clipped old contents |
| SpectralReadouts.SvdVals | kooplearn/_src/operator_regression/dual.py:387-391 | value `i` is `sqrt` of the clipped real part of eigenvalue `i`, whose argument is never negative; it is `sqrt(re)` for a non-negative real part and `sqrt(0)` otherwise; every value is non-negative when `sqrt` maps non-negative arguments to non-negative results |
| Risk.CrossProduct | kooplearn/_src/operator_regression/dual.py:410 | the cross-term product, the `multi_dot` of its four factors, is `nv x nv` |
| Risk.QuadraticProduct | kooplearn/_src/operator_regression/dual.py:416 | the quadratic-term product, the `multi_dot` of its seven factors, is `nv x nv` |
| Risk.RiskYNonNegative | kooplearn/_src/operator_regression/dual.py:405 | `r_Y` (`Risk.RiskY`, `tr(K_Yv) / nv`) is never negative when the diagonal of `K_Yv` is not |
| Risk.RiskXYLinear | kooplearn/_src/operator_regression/dual.py:406-411 | `r_XY` (`Risk.RiskXY`, `-2 tr(multi_dot([K_YYv^T, V, U^T, K_XXv])) / (nv n)`) is linear in `U`: scaling `U` by `c` scales it by `c` |
| Risk.RiskXQuadratic | kooplearn/_src/operator_regression/dual.py:412-418 | `r_X` (`Risk.RiskX`, `tr(multi_dot([K_XXv^T, U, V^T, K_Y, V, U^T, K_XXv])) / (nv n^2)`) is quadratic in `U`: scaling `U` by `c` scales it by `c * c` |
| Risk.EstimatorRisk | kooplearn/_src/operator_regression/dual.py:402-419 | ZeroDivisionError exactly when the training or the validation set is empty; otherwise `r_Y + r_XY + r_X` |
| Risk.EstimatorRiskAlongRay | kooplearn/_src/operator_regression/dual.py:402-419 | along the ray `c U` the risk is the parabola `r_Y + c r_XY + c^2 r_X` in the terms of `U` |
| Risk.CrossProductScaled | kooplearn/_src/operator_regression/dual.py:410 | scaling `U` by `c` scales the cross-term product by `c` |
| Risk.QuadraticProductScaled | kooplearn/_src/operator_regression/dual.py:416 | scaling `U` by `c` scales the quadratic-term product by `c * c` |
| Matrices.MultiDotScaled | kooplearn/_src/operator_regression/dual.py:410 | scaling one factor of a `multi_dot` by `c` scales the product by `c` |
| Matrices.MultiDotZero | kooplearn/_src/operator_regression/dual.py:416 | a `multi_dot` with a zero factor is zero |
| Risk.ZeroEstimatorRisk | kooplearn/_src/operator_regression/dual.py:402-419 | the zero estimator's risk is `(1/nv) tr(K_Yv)` |
| Risk.RiskWithVanishingTerms | kooplearn/_src/operator_regression/dual.py:404-419 | when both data-dependent traces vanish, only `r_Y` remains |
| Risk.ZeroCross | kooplearn/_src/operator_regression/dual.py:410 | with `U == 0` the cross-term product is zero |
| Risk.ZeroQuadratic | kooplearn/_src/operator_regression/dual.py:416 | with `U == 0` the quadratic-term product is zero |
| Risk.CrossTermCyclic | kooplearn/_src/operator_regression/dual.py:406-411 | the cross-term trace equals the trace of the `r x r` product `U^T K_XXv K_YYv^T V` |

## Left out

- The eigensolvers (`eig`, `eigs`, `eigh`, `eigsh`), `lstsq`, `modified_QR`, `_rank_reveal`, `weighted_norm`, `topk` and `fuzzy_parse_complex` are library or helper code outside this model. Their results are parameters of the operations that use them. In particular, the Nystroem column permutation is assumed to be a permutation.
- `fit_rand_reduced_rank_regression` and `fit_rand_principal_component_regression` (lines 100-156 and 281-304) are left out. They depend on a random number generator and on randomized numerical linear algebra.
- Floating point is not modelled: arithmetic is exact over the reals. The machine epsilon `np.finfo(...).eps` is a parameter (`eps`, `machineEps`), and the exact-equality tests on imaginary parts are taken literally.
- Square roots and `n ** -0.5` are parameters (`sqrt`, `s`, `sqrtDim`, `t`) rather than computed values. The closed-form lemmas take `s * s == 1/n` as a hypothesis.
- ReducedRankRegression.MagnitudeOrder: ties between equal magnitudes are broken by a stable insertion sort, which need not match `topk`'s tie order. Magnitudes are compared through `re^2 + im^2`, which orders values as `abs` does.
- EstimatorEig.RightOrder: ties in `np.argsort` are broken by the same stable sort. numpy's default quicksort makes no tie guarantee.
- ReducedRankRegression.Normalize: numpy divides by a zero norm and produces `inf`/`nan` columns. The model reports this as `NonFiniteColumn` and does not produce non-finite numbers.
- ReducedRankRegression.FitReducedRankRegression: the `_return_singular_values` flag is not a parameter. The sorted eigenvalues are always returned, next to `U` and `V`. The empty training set is rejected earlier, by `RrrPencil`.
- NystroemRegression.FitNystroemReducedRankRegression: the `_return_singular_values` flag and the final `.real` casts are left out, because the model's `U` and `V` are already real.
- EstimatorEig.EstimatorEigen: `W_X` (dual.py:336) is never formed. The right norms that `weighted_norm` computes from it are an input, `normR`.
- EstimatorEig.SortedRight: its contract states only the shape. The entries are stated by `EstimatorEig.RightVectorsFollowValues`.
- NystroemRegression.NystroemGram: states only shape and symmetry, not each entry. The entries are fixed by the function's definition.
- Prediction.Predict: `num_steps = 0` is excluded by a precondition. There the source computes `matrix_power(T, -1)`, a matrix inverse, which is not modelled.
- Prediction.Predict: its contract states the shape and the error case. The value is stated by `PredictIterates` and `PredictClosedForm`.
- `multi_dot` chooses its own parenthesisation. The model multiplies left to right, which is the same matrix in exact arithmetic (`Matrices.MulAssoc`).
- The "discarded dimensions" warning's largest discarded magnitude and the overfitting warning's formatting are not modelled. The warnings carry only their counts.
- NystroemRegression.FitNystroemPrincipalComponentRegression: how `_rank_reveal` treats a missing rank with the "full" solver is not visible in this module. Its outputs are parameters.
