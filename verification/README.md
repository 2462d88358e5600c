# Zone fabric core: a verified model

A Dafny 4.11 model of two parts of the zone server and proofs of what they are for.

**The rotation solver** (`src/gen/sinew_align.c`) fits a rotation R to vector pairs `targets[i] ~= R sources[i]`. One pair goes
to the shortest-arc formula; any other number builds a covariance, adds a cross-product pair, regularises, runs thirty
Newton-Schulz steps, tests the answer and falls back to Jacobi and Kabsch. The array code (`Solver.dfy`) is proved equal to
functions on 3x3 matrices, and the theorems are about those functions.

**The durable zone tick** (`src/zf_zonetick.c` over `src/zf_kv.c`, `src/gen/xr_grid_entity_packet.c` and
`src/fdb_database.c`) reads all entities of a zone, moves them, writes them back and commits, with retries, through
callbacks that may fire on another thread or inside the call that registers them. Any number of runs interleave over one
ordered store; the database library is an environment that chooses every answer it gives.

The intrusive queue of `src/list.h` is a third, small part, at the level of its links.

Verify everything with `dafny verify dfyconfig.toml`.

## How it is laid out

| files | content |
|---|---|
| `LinAlg`, `Forms`, `Commuting`, `Rotations` | 3x3 algebra, quadratic forms, products of commuting psd matrices, inequalities every rotation satisfies |
| `NewtonSchulz`, `Convergence`, `Conditioning`, `FastPath` | the Newton-Schulz path: stability, determinant, when and how fast it converges, when its answer is accepted |
| `Optimality`, `PolarFactor`, `Reflection`, `NegativeDeterminant` | how good its answer is, for covariances of positive and of negative determinant |
| `Libm`, `Jacobi`, `JacobiRate`, `JacobiEnds`, `Kabsch`, `KabschNear` | the fallback: its eigenvalue iteration, how fast that converges from every start, and the rotation it assembles |
| `ShortestArc`, `Align` | the one-pair formula, the covariance with its cross-product pair and regularisation, the dispatcher |
| `AlignQuality`, `TwoPairs`, `Counterexamples` | what the whole solver answers, with regularisation counted in, and where it fails |
| `Solver` | every routine of the solver as it works on arrays, equal to the functions above |
| `Bytes`, `Keys`, `Packet`, `Tick` | integers, key order and range, packet codec, what a tick does to a value and to a write buffer |
| `TickMachine`, `TickInvariant` | one run as call stacks plus pending callbacks, and what every step keeps |
| `Fabric`, `Serial`, `Answers`, `Traces` | many runs over one store, their serial meaning, what the library's answers make of a run, and the runs in which the code does less than its header says |
| `Queue` | the intrusive queue |

Main results, by name: `Kabsch.KabschBestIff`, `JacobiEnds.Jacobi9Ends`, `KabschNear.KabschNearBest`, `NewtonSchulz.NeverDiverges`,
`Convergence.QuadraticConvergence`, `Conditioning.ConvergesIff`, `FastPath.FastPathAccepted`,
`Optimality.FastPathNearOptimal`, `Reflection.ReflectedAnswer`, `NegativeDeterminant.NegativeAnswer`,
`ShortestArc.RodriguesRotationIff`, `AlignQuality.PositiveQuality`, `AlignQuality.NegativeQuality`,
`AlignQuality.AlignOutcome`, `AlignQuality.RefusedOutcome`, `AlignQuality.AlignRecoversRotation` with
`AlignQuality.AlignLimit`, `TwoPairs.TwoPairsRecovered`, `Serial.RunInvariant`, `Serial.ReportedIff`, `Answers.NeverGivesUp`, `Serial.FutureInvariant`, `Serial.Serialised`,
`Serial.AnyOrder`, `Serial.OkRunStore`, `Serial.ZoneStore`.

"Within reach of the thirty steps" means that the first Newton-Schulz step leaves squared singular values of at least
1e-6 (`Convergence.Ready`).

## Model

| member | source | states |
|---|---|---|
| `NewtonSchulz.StartBounded` | src/gen/sinew_align.c:105-113 | for every h the scaled start has a sum of squared entries below 3 |
| `NewtonSchulz.StartScales` | src/gen/sinew_align.c:105-113 | the start times the largest row sum plus 1e-8 is h |
| `NewtonSchulz.StepContracts` | src/gen/sinew_align.c:115-129 | a step from any X with X^T X <= 3 I gives X'^T X' <= I |
| `NewtonSchulz.NeverDiverges` | src/gen/sinew_align.c:103-130 | for every h and every number of steps no iterate after the start stretches any vector |
| `NewtonSchulz.ContractionEntries` | src/gen/sinew_align.c:114-130 | such an iterate has all nine entries in [-1, 1] |
| `NewtonSchulz.DeterminantSign` | src/gen/sinew_align.c:110-130 | every iterate has a determinant of the same sign as det h, zero exactly when det h is zero |
| `NewtonSchulz.Ns30Determinant` | src/gen/sinew_align.c:103-137 | the result has determinant >= 0, and > 0 if and only if det h is not 0 |
| `Convergence.ResidualStep` | src/gen/sinew_align.c:115-129 | I - X'^T X' = E (3I + E) E / 4 for E = I - X^T X |
| `Convergence.QuadraticStep` | src/gen/sinew_align.c:114-130 | a residual row sum e <= 1 falls to at most e^2 (3 + e) / 4 <= e^2 |
| `Convergence.QuadraticConvergence` | src/gen/sinew_align.c:114-130 | k steps bring a residual row sum e <= 1 to at most e^(2^k) |
| `Convergence.StepExpands` | src/gen/sinew_align.c:115-129 | a lower bound m on the squared singular values of a contraction climbs to m (3 - m)^2 / 4 |
| `Convergence.StartReady` | src/gen/sinew_align.c:110-130 | a start with squared singular values of at least 1/100 is within reach of the thirty steps |
| `Convergence.ContractionReady` | src/gen/sinew_align.c:110-130 | so is a start that stretches nothing and shrinks no squared length below 1e-6 |
| `Convergence.ThirtyStepsConverge` | src/gen/sinew_align.c:114-130 | within reach, the thirty steps bring every squared singular value into [1 - 1e-6, 1] |
| `Conditioning.DetExpands` | src/gen/sinew_align.c:105-113 | a matrix with a sum of squares below 3 has squared singular values of at least det^2 / 3 |
| `Conditioning.WellConditioned` | src/gen/sinew_align.c:103-130 | if the absolute determinant of h is at least 0.18 times the cube of its row sum plus 1e-8, h is within reach and the fast path is taken |
| `Conditioning.ConvergesIff` | src/gen/sinew_align.c:114-130 | the iteration brings the residual below every bound if and only if det h is not 0 |
| `FastPath.FastPathAccepted` | src/gen/sinew_align.c:156-171 | a covariance within reach always passes the validity test, so the fallback is not taken |
| `FastPath.Valid9Means` | src/gen/sinew_align.c:156-171 | the test passes if and only if the determinant lies in [0.99, 1.01] and every entry of R^T R - I is within 0.01 |
| `FastPath.AcceptedStretch` | src/gen/sinew_align.c:156-171 | for every covariance the test accepts, the answer has a positive determinant and squared stretch in [0.97, 1] |
| `Optimality.AlwaysTowardsPolar` | src/gen/sinew_align.c:103-130 | every iterate X keeps X^T h positive semidefinite and commuting with X^T X |
| `Optimality.FastPathNearOptimal` | src/gen/sinew_align.c:103-137 | for det h > 0 every accepted result is within a factor 0.97 of every orthogonal matrix in trace(Q^T h), and within 1 - 1e-6 within reach |
| `Optimality.FlipBestIff` | src/gen/sinew_align.c:131-135 | for h = O S with det O = -1, negating the last column of O gives a best rotation if and only if the last axis is a direction of least stretch of S (a step towards the results on the code's answer below) |
| `Optimality.FlipCounterexample` | src/gen/sinew_align.c:131-135 | on diag(-1, 3, 3) the accepted answer scores at most 1 where the identity scores 5 |
| `PolarFactor.IteratesFactor` | src/gen/sinew_align.c:103-130 | for h = R P, R orthogonal and P psd, every iterate is R times a psd matrix, with P_k^2 <= I from the first step on |
| `PolarFactor.Ns30Factor` | src/gen/sinew_align.c:103-137 | for a rotation R so is the result: no column is flipped |
| `PolarFactor.FastPathNearTruth` | src/gen/sinew_align.c:311-319 | for a rotation R a residual of at most e bounds the distance of the answer to R by 3e on every vector |
| `Reflection.ReflectedLimit` | src/gen/sinew_align.c:131-136 | for det O = -1 and a final residual of at most e the code flips, and its answer is within 3e of O with the last column negated |
| `Reflection.ShortfallAtMost` | src/gen/sinew_align.c:131-136 | no rotation scores more than twice the excess stretch of the last axis, plus 3e tr S, above the code's answer |
| `Reflection.ShortfallAtLeast` | src/gen/sinew_align.c:131-136 | for every direction some rotation scores that much above it, less 3e tr S |
| `Reflection.NearBestOnlyIf` | src/gen/sinew_align.c:131-136 | so an answer within d of every rotation forces the last axis to be of least stretch up to d / 2 + 1.5 e tr S |
| `Reflection.LeastLastIff` | src/gen/sinew_align.c:131-135 | the condition on S is a condition on h: no direction is stretched less by h than the last axis |
| `Reflection.ReflectedAnswer` | src/gen/sinew_align.c:103-137 | under that condition, and only then, the rotation the answer is within 3e of is a best one, and the answer scores within a factor 1 - 9e of every rotation |
| `NegativeDeterminant.NearTrace` | src/gen/sinew_align.c:131-136 | a contraction with residual at most e and negative determinant has a trace of at most 1 + 8e against any rotation |
| `NegativeDeterminant.NegativeAnswer` | src/gen/sinew_align.c:103-137 | the same condition on h alone, no polar factors given: the answer scores within a factor 1 - 25e of every rotation |
| `Jacobi.Jacobi9Similar` | src/gen/sinew_align.c:173-214 | over all rotations of all sweeps V is a rotation and A = V^T a V |
| `Jacobi.SimilarKeeps` | src/gen/sinew_align.c:181-209 | hence A stays symmetric with the trace and the sum of squares of the input |
| `Jacobi.RotateRemovesPivot` | src/gen/sinew_align.c:187-207 | one rotation annihilates its pivot and lowers the off-diagonal sum of squares by exactly 2 apq^2; a pivot below 1e-20 is left alone |
| `Jacobi.SweepsRemove` | src/gen/sinew_align.c:181-209 | the off-diagonal sum is accounted for exactly over any number of sweeps |
| `Jacobi.Jacobi9Accounts` | src/gen/sinew_align.c:173-214 | the result of the whole stage: its off-diagonal sum is that of the input less what the rotations of fifty sweeps remove, its entry (1, 2) is below 1e-20 unless nothing was rotated, and an input below the exit threshold is returned as it is |
| `JacobiRate.SweepRate` | src/gen/sinew_align.c:181-209 | across a spread g of the first and last diagonal entry, which never shrinks, a sweep takes the off-diagonal sum e to at most e^2 / g^2, up to three entries below 1e-20 |
| `JacobiRate.SweepsRate` | src/gen/sinew_align.c:181-209 | n sweeps take a sum of w g^2 / 2, w <= 1, to w^(2^n) g^2 / 2, up to the threshold |
| `JacobiEnds.SweepOpens` | src/gen/sinew_align.c:185-208 | from ordered ends a sweep opens a gap between the last two diagonal entries that dominates what it leaves, or leaves next to nothing |
| `JacobiEnds.ThreeSweeps` | src/gen/sinew_align.c:181-209 | from every start, three sweeps make the spread dominate the off-diagonal entries, or leave next to nothing |
| `JacobiEnds.Jacobi9Ends` | src/gen/sinew_align.c:173-214 | for every symmetric matrix with a sum of squares up to 2^(2^44) the fifty sweeps leave no off-diagonal entry above 1e-19 |
| `JacobiEnds.GramEnds` | src/gen/sinew_align.c:216-225 | so they do on h^T h for every h with entries up to 2^(2^40), which covers every finite double |
| `Kabsch.SortedFrame` | src/gen/sinew_align.c:227-245 | the exchange sort permutes the eigenpairs into descending order and keeps them eigenpairs |
| `Kabsch.FrameBest` | src/gen/sinew_align.c:238-280 | exact eigenpairs with two singular values above 1e-12 give a rotation that maximises trace(Q^T h) over all rotations, reflections of h included |
| `Kabsch.DeficientFrame` | src/gen/sinew_align.c:247-280 | with fewer than two the result is singular |
| `Kabsch.KabschBestIff` | src/gen/sinew_align.c:216-281 | the result is a rotation if and only if the middle singular value exceeds 1e-12, and then it is a best one |
| `Kabsch.KabschRecovers` | src/gen/sinew_align.c:216-281 | on h = R P with P psd the answer is exactly R |
| `KabschNear.JacobiNearFrame` | src/gen/sinew_align.c:216-245 | if the Jacobi stage leaves off-diagonal entries of at most c, the sorted eigenvectors are orthonormal and carried by h to vectors orthogonal up to c, of the squared lengths it reports |
| `KabschNear.NearImproper` | src/gen/sinew_align.c:274-280 | a left-handed frame orthonormal up to t has a trace of at most 1 + 4t against any rotation |
| `KabschNear.KabschNearBest` | src/gen/sinew_align.c:216-281 | with a least singular value sigma above 1e-12 and off-diagonal entries of at most t sigma^2, the answer changes no squared length by more than 2t and no rotation scores more than 4t sigma above it, reflections included |
| `KabschNear.ConvergedSettles` | src/gen/sinew_align.c:181-184 | the early exit meets that condition when t sigma^2 reaches 1e-20 |
| `KabschNear.FiniteSettles` | src/gen/sinew_align.c:181-209 | every finite h meets it when t sigma^2 reaches 1e-19, whether or not the exit is taken |
| `KabschNear.KabschFlatBest` | src/gen/sinew_align.c:257-280 | the same for a least singular value of at most 1e-12, where the third left vector is completed by a cross product: squared lengths within 2t, and no rotation scores more than 2e-12 above the answer |
| `KabschNear.FiniteSettlesFlat` | src/gen/sinew_align.c:181-209 | every finite h of rank two meets its condition when t times the square of the middle singular value reaches 1e-19 |
| `KabschNear.KabschDeficient` | src/gen/sinew_align.c:257-280 | whatever the Jacobi stage left, a middle singular value of at most 1e-12 makes the answer singular |
| `ShortestArc.ClampIsIdle` | src/gen/sinew_align.c:72-74 | the clamp of the cosine never acts |
| `ShortestArc.AxisIsLong` | src/gen/sinew_align.c:76-82 | the axis the antiparallel branch normalises has norm at least 0.6 |
| `ShortestArc.AntiparallelRotation` | src/gen/sinew_align.c:76-90 | that branch gives a rotation that turns b round, missing the target by less than 2e-6 in squared length, and reverses the second coordinate axis when the first component of the unit b exceeds 0.6, the first one otherwise |
| `ShortestArc.GeneralRotation` | src/gen/sinew_align.c:92-100 | the general branch on unit vectors gives a rotation that carries b exactly onto a |
| `ShortestArc.RodriguesRotationIff` | src/gen/sinew_align.c:66-101 | for all a, b the result is a rotation if and only if the antiparallel branch is taken, both norms reach 1e-8, or a and b are parallel |
| `ShortestArc.RodriguesHitsIff` | src/gen/sinew_align.c:66-101 | for norms of at least 1e-8 the source direction is carried exactly onto the target direction if and only if their cosine is at least -0.999999 or they are exactly opposite; below that it is carried onto its own opposite |
| `ShortestArc.RodriguesShortestArc` | src/gen/sinew_align.c:66-101 | of all rotations that carry b onto a it has the largest trace, that is the smallest angle |
| `Align.BumpFacts` | src/gen/sinew_align.c:139-154 | regularisation adds between 0 and a twentieth of the scale, and nothing exactly when the normalised volume reaches 1e-6 |
| `Align.BumpExact` | src/gen/sinew_align.c:139-154 | with s the largest row sum, at least 1e-8: nothing is added if and only if the absolute determinant reaches 1e-6 s^3, and below that b s^2 = 0.05 (s^3 - 1e6 abs(det)) |
| `Align.BumpScales` | src/gen/sinew_align.c:139-154 | scaling the covariance scales the bump, while both row sums reach 1e-8 |
| `Align.ExactCovariance` | src/gen/sinew_align.c:325-334 | on exact data the covariance is R times a psd matrix |
| `Align.ExactNormals` | src/gen/sinew_align.c:293-309 | the cross-product pair keeps that form |
| `Align.NormalsAct` | src/gen/sinew_align.c:293-309 | when both cross products are longer than 1e-9 every v gains a positive, given multiple of (b0 x b1, v) times a0 x a1, nothing for v orthogonal to b0 x b1; otherwise the covariance stays as it was |
| `Align.AsIntIs` | src/gen/sinew_align.c:342 | the count as an int: congruent to it modulo 2^32, and equal below 2^31 |
| `Align.AlignOnePair` | src/gen/sinew_align.c:288-291 | one pair of equal norms: always a rotation, which carries the source exactly onto the target or, for a nearly antiparallel pair, misses by less than 2e-6 of the squared length |
| `AlignQuality.BumpCost` | src/gen/sinew_align.c:139-154 | on the covariance itself the answer loses at most four bumps, a fifth of the scale, against any rotation |
| `AlignQuality.PositiveQuality` | src/gen/sinew_align.c:311-319 | every covariance, det g > 0 once regularised: an accepted answer scores 0.97 of any rotation, 1 - 1e-6 within reach, and so on the covariance itself up to four bumps |
| `AlignQuality.NegativeQuality` | src/gen/sinew_align.c:311-319 | det g < 0 and no direction stretched less than the last axis: 0.75 when accepted, 1 - 2.5e-5 within reach |
| `AlignQuality.NegativeLimit` | src/gen/sinew_align.c:311-319 | and exactly then is the rotation the answer approximates a best one |
| `AlignQuality.FallbackQuality` | src/gen/sinew_align.c:311-319 | the fallback answers with a best rotation of g when g^T g was diagonalised exactly, and with a nearly best one when little was left off the diagonal, for rank three and rank two |
| `AlignQuality.AlignOutcome` | src/gen/sinew_align.c:283-343 | when the answer of more than one pair is a rotation: nearly one when accepted; when refused, singular if the middle singular value of g is at most 1e-12, a rotation otherwise if g^T g was diagonalised exactly, and nearly one if little was left off the diagonal |
| `AlignQuality.RefusedOutcome` | src/gen/sinew_align.c:311-317 | the refused case for every finite g, with nothing asked of the Jacobi stage: singular if the middle singular value is at most 1e-12; else, with sigma the least one above 1e-12 and t sigma^2 >= 1e-19, squared lengths within 2t and a score within 4t sigma of every rotation, 2e-12 at rank two |
| `AlignQuality.KeepsFormIff` | src/gen/sinew_align.c:139-154 | on exact data the regularised covariance keeps the form R times psd if and only if nothing was added, or R is symmetric and P + b R has a non-negative form |
| `AlignQuality.AlignRecoversRotation` | src/gen/sinew_align.c:322-343 | exact data of every volume: within 3% of R when accepted and within 3e-6 within reach, if the regularised covariance is R, or R with its last column negated, times psd; exactly R through the fallback in the first case |
| `AlignQuality.AlignLimit` | src/gen/sinew_align.c:322-343 | and only then: the rotation the accepted answer is within 3e of is R if and only if the regularised covariance has one of those two forms |
| `TwoPairs.TwoPairsRecovered` | src/gen/sinew_align.c:283-343 | two exact pairs of any rotation with orthogonal unit sources: the answer of the whole solver is within 3e-6 of it on every vector |
| `Counterexamples.AlignNotBest` | src/gen/sinew_align.c:311-319 | four concrete pairs for which the answer of sinew_align scores at most 1, where the identity scores 5 |
| `Counterexamples.HalfTurnLost` | src/gen/sinew_align.c:311-319 | three exact pairs of a half turn for which the accepted answer sends the last axis up where its target points down |
| `Counterexamples.HalfTurnKept` | src/gen/sinew_align.c:311-319 | three other exact pairs of the same half turn, in the second form, for which the answer is within 3e-6 of it |
| `Counterexamples.SingularAnswer` | src/gen/sinew_align.c:311-317 | three pairs for which the answer of sinew_align is a singular matrix |
| `Solver.Det9` | src/gen/sinew_align.c:37-41 | the determinant of the stored matrix |
| `Solver.Mul9` | src/gen/sinew_align.c:43-53 | the matrix product, also when the output aliases an input |
| `Solver.Transpose9` | src/gen/sinew_align.c:55-64 | the transpose, also in place |
| `Solver.RodriguesInto` | src/gen/sinew_align.c:66-101 | the buffer receives the function about which the shortest-arc theorems are proved |
| `Solver.HalfTurnInto` | src/gen/sinew_align.c:84-88 | the loop fills 2 x x^T - I |
| `Solver.TurnedInto` | src/gen/sinew_align.c:94-100 | the loop fills I + K + f K^2 |
| `Solver.LargestRowSum` | src/gen/sinew_align.c:105-109 | the largest absolute row sum |
| `Solver.StartInto` | src/gen/sinew_align.c:110-113 | the scaled start |
| `Solver.GramInto` | src/gen/sinew_align.c:116-120 | the loop fills r^T r |
| `Solver.StepInPlace` | src/gen/sinew_align.c:114-130 | one pass of the loop replaces r by its Newton-Schulz step |
| `Solver.Ns30Into` | src/gen/sinew_align.c:103-137 | the buffer receives the Newton-Schulz result |
| `Solver.RegularizeInto` | src/gen/sinew_align.c:139-154 | the buffer receives the regularised covariance |
| `Solver.IsValid9` | src/gen/sinew_align.c:156-171 | the flag says whether determinant and Gram matrix are within 0.01 |
| `Solver.RotateOnce` | src/gen/sinew_align.c:186-207 | one plane of one sweep updates a and v in place |
| `Solver.SweepLoop` | src/gen/sinew_align.c:181-209 | at most fifty sweeps with the early exit |
| `Solver.Jacobi9Into` | src/gen/sinew_align.c:173-214 | the eigenvalue and vector buffers receive the decomposition |
| `Solver.SortOrder` | src/gen/sinew_align.c:227-236 | the index array is the descending order of the eigenpairs |
| `Solver.SelectVectors` | src/gen/sinew_align.c:238-245 | columns and singular values in that order |
| `Solver.LeftInto` | src/gen/sinew_align.c:247-256 | the left vectors h v / sigma, zero below the threshold |
| `Solver.CompleteInPlace` | src/gen/sinew_align.c:257-268 | missing columns are replaced, in order, by cross products |
| `Solver.AssembleInto` | src/gen/sinew_align.c:270-280 | U diag(1, 1, sgn) V^T |
| `Solver.KabschInto` | src/gen/sinew_align.c:216-281 | the buffer receives the function about which the Kabsch theorems are proved |
| `Solver.NormalsInto` | src/gen/sinew_align.c:293-309 | the cross-product pair is added in place |
| `Solver.FinishAlignInto` | src/gen/sinew_align.c:283-320 | dispatch, fast path and fallback |
| `Solver.CovarianceInto` | src/gen/sinew_align.c:325-334 | the accumulated covariance of the stored pairs |
| `Solver.AlignInto` | src/gen/sinew_align.c:322-343 | the whole solver on its input arrays |
| `Bytes.U32BeRoundTrip` | src/zf_kv.c:10-22 | the u32 key codec round-trips both ways |
| `Keys.EncodeU32Be` | src/zf_kv.c:10-16 | four bytes are written at the offset and nothing else |
| `Keys.AppendPrefix` | src/zf_kv.c:24-29 | the prefix is copied to the front of the buffer |
| `Keys.ZoneKeyInto` | src/zf_kv.c:31-36 | the buffer holds the zone key |
| `Keys.EntityKeyInto` | src/zf_kv.c:38-46 | the buffer holds the entity key |
| `Keys.RangeBeginInto` | src/zf_kv.c:48-55 | the buffer holds the start of the range |
| `Keys.RangeEndInto` | src/zf_kv.c:57-66 | the buffer holds the end of the range |
| `Keys.KeysSpell` | src/zf_kv.c:24-66 | the keys spell zf/zone/ and zf/entity/ followed by the ids, most significant byte first, with a slash between zone and entity |
| `Keys.EntityKeyOrder` | src/zf_kv.c:38-46 | keys determine their ids, and byte order is exactly the numeric order of (zone, entity) |
| `Keys.ZoneKeyInjective` | src/zf_kv.c:31-36 | two zones have the same key if and only if they are the same |
| `Keys.RangeIs` | src/zf_kv.c:48-66 | any byte string lies in a zone's range if and only if it is the zone's prefix, alone or followed by a byte below 0xFF |
| `Keys.RangeScanExact` | src/zf_kv.c:38-66 | the key of (z', e) lies in the range of z if and only if z' = z and e < 0xFF000000 |
| `Keys.RangesDisjoint` | src/zf_kv.c:48-66 | no byte string lies in the ranges of two zones |
| `Keys.ZoneKeyOutside` | src/zf_kv.c:31-66 | no zone key lies in any entity range |
| `Packet.Put` | src/gen/xr_grid_entity_packet.c:12-50 | the little-endian bytes are written at the offset and nothing else |
| `Packet.Get` | src/gen/xr_grid_entity_packet.c:19-56 | the number the bytes denote |
| `Packet.EncodeInto` | src/gen/xr_grid_entity_packet.c:58-76 | the buffer receives the encoding |
| `Packet.DecodeFrom` | src/gen/xr_grid_entity_packet.c:78-94 | the packet the buffer denotes |
| `Packet.DecodeDenotes` | src/gen/xr_grid_entity_packet.c:78-94 | every field is the number its bytes denote at its offset, in two's complement where it is signed, stated on single bytes |
| `Packet.EncodeDenotes` | src/gen/xr_grid_entity_packet.c:58-76 | the bytes written denote the fields in the same sense |
| `Packet.DecodeEncode` | src/gen/xr_grid_entity_packet.c:58-94 | decode(encode(p)) = p for every packet |
| `Packet.EncodeDecode` | src/gen/xr_grid_entity_packet.c:58-94 | encode(decode(b)) = b if and only if bytes 34 to 39 are zero |
| `Packet.DecodeEntityEncode` | src/zf_kv.c:81-97 | the length-checked decoder inverts the encoder |
| `Tick.VelocityRange` | src/zf_zonetick.c:28-31 | the displacement is odd, at most 500015, and its product with any u32 count fits in an int64 |
| `Tick.VelocityTruncates` | src/zf_zonetick.c:28-31 | the displacement is 500000 v / 32767 cut off towards zero: its defining inequalities for both signs |
| `Tick.TickBytes` | src/zf_zonetick.c:97-108 | the loop body computes the ticked value of the stored bytes |
| `Tick.ApplyRows` | src/zf_zonetick.c:96-110 | the row loop sets, in the transaction's write buffer, exactly the ticked rows over what was there |
| `Tick.TickWritesAt` | src/zf_zonetick.c:96-110 | the loop writes exactly the keys it read, each with its ticked value |
| `Tick.ScanDetermined` | src/zf_zonetick.c:84-95 | a range read is determined by the store and the number of rows it returns |
| `Tick.TickCompose` | src/zf_zonetick.c:96-110 | on stored bytes, tick n then tick m is tick n + m |
| `Tick.TickRepeat` | src/zf_zonetick.c:96-110 | k ticks of count n are one tick of count k n |
| `Tick.TickWritesCanonical` | src/zf_zonetick.c:96-110 | every value written is a canonical packet that differs from the value read only in its position, by exactly the displacement when it fits |
| `Tick.TickOddLengths` | src/zf_kv.c:91-97 | a stored value shorter than a packet is written back as a hundred zero bytes, and bytes past the hundredth are dropped |
| `TickInvariant.SubmitSound` | src/fdb_database.c:83-104 | all four outcomes of a submission keep the ownership protocol |
| `TickInvariant.ReturnErrorSound` | src/zf_zonetick.c:54-58 | a failed range-read submission finishes the run, a failed commit or on_error submission loses it |
| `TickInvariant.StepSound` | src/zf_zonetick.c:37-146 | every step of every thread keeps one owner and every future and wrapper accounted for |
| `TickInvariant.StepInv` | src/zf_zonetick.c:37-146 | ... and the phase, commit and reset bookkeeping |
| `Fabric.LandFolds` | src/zf_zonetick.c:96-113 | a commit has the effect of its reads ticked atomically one after the other |
| `Fabric.LandElsewhere` | src/zf_kv.c:48-66 | a commit in one zone changes nothing a run of another zone relies on |
| `Fabric.ExecSysInv` | src/zf_zonetick.c:37-146 | all of it in every reachable state of any number of interleaved runs |
| `Serial.RunInvariant` | src/zf_zonetick.c:37-146 | every run has exactly one owner, or finished once with context and transaction released once, or was lost to the failed submission of a commit or on_error; nothing is used after release |
| `Serial.SettledIff` | src/zf_zonetick.c:71-124 | a run that can no longer move has called done_cb if and only if no such submission failed |
| `Serial.LiveMoves` | src/zf_zonetick.c:37-124 | a run with an owner can move |
| `Serial.ReportedIff` | src/zf_zonetick.c:37-124 | ok = false if and only if the run's last answer was a refused range read or unreadable rows, ok = true if and only if its last commit reported success, no report ever if and only if a commit or an on_error was refused |
| `Answers.StepHears` | src/zf_zonetick.c:61-124 | a step keeps the last answer or executes a callback or failed call that learns the new one; errors of reads and commits, unreadable rows and on_error outcomes are always learnt |
| `Answers.AnswerGiven` | src/zf_zonetick.c:48-124 | in every execution, what a run last heard was told it in a step of its own |
| `Answers.ReportGiven` | src/zf_zonetick.c:37-124 | a report of ok = true follows a commit whose future carried no error, a report of ok = false a refused range read or rows that could not be extracted |
| `Answers.NeverGivesUp` | src/zf_zonetick.c:61-124 | errors carried by futures never end a run: unless a submission is refused or rows cannot be extracted it never reports ok = false and is never lost, and once nothing of it can move it has reported ok = true |
| `Serial.FutureInvariant` | src/fdb_database.c:75-104 | each future is destroyed at most once, exactly once when its submission failed or its callback returned, its wrapper as often as it was made |
| `Serial.Serialised` | src/zf_zonetick.c:48-113 | every reachable store is the initial one with the applied ticks run atomically in commit order, each on entities of its own zone |
| `Serial.NeverTicked` | src/zf_kv.c:57-66 | zone records and entities with an id of 0xFF000000 or more keep their values in every execution |
| `Serial.FoldAt` | src/zf_zonetick.c:96-110 | closed form: a stored value is its first value moved by the sum of the counts applied to it |
| `Serial.AnyOrder` | src/zf_zonetick.c:96-113 | any two orders of the same ticks leave the same store |
| `Serial.SameTicksSameStore` | src/zf_zonetick.c:48-113 | executions that applied the same ticks leave the same store, however they interleaved |
| `Serial.OkTicks` | src/zf_zonetick.c:61-124 | a run that reported ok ticked exactly 1 + u + c times: u commits applied though reported as failed, c reads a commit took along from an attempt whose on_error did not reset; once per applied commit if and only if c = 0 |
| `Serial.OkRunStore` | src/zf_zonetick.c:61-124 | whatever other runs did, the entities it read have moved, by it, exactly that many times its count from where the others alone would have them |
| `Serial.Books` | src/zf_zonetick.c:61-124 | every run, whatever became of it, has applied as many reads as it landed commits plus reads taken along |
| `Serial.ZoneStore` | src/zf_zonetick.c:61-124 | over a whole execution an entity that every applied read of its zone returned has moved by the sum over all runs of the zone |
| `Traces.LosesCommit` | src/zf_zonetick.c:112 | for every store and zone a failed commit submission leaves a run without an owner and without done_cb |
| `Traces.LostForever` | src/zf_zonetick.c:112-120 | nothing that happens later makes a lost run call done_cb |
| `Traces.TicksTwice` | src/zf_zonetick.c:61-69 | for every entity and count: an on_error future that carries an error and leaves the transaction as it was is not reported, and the one commit that applies ticks twice |
| `Queues.Queue.Init` | src/list.h:16-20 | an empty queue whose tail designates the head |
| `Queues.Queue.Push` | src/list.h:22-27 | the node is appended; only the queue, the node and the old last node change |
| `Queues.Queue.Pop` | src/list.h:29-38 | the first node is removed and returned, or null from an empty queue |
| `Queues.Queue.IsEmpty` | src/list.h:40-43 | whether the contents are empty |
| `Queues.Queue.TailIsTheNullLink` | src/list.h:11-38 | the tail designates the one null link of the chain |
| `Queues.FirstInFirstOut` | src/list.h:22-38 | over any operations, what came out followed by what is left is what was there followed by what was pushed |
| `Queues.Perform` | src/list.h:16-38 | any sequence of pushes and pops on the links behaves as that sequence specification |

## Where the code and its comments disagree

- `src/zf_kv.c:59-62` calls the range end past every entity id; ids with the top byte 0xFF sort at or after it (`Keys.RangeScanExact`, `Serial.NeverTicked`).
- `src/zf_zonetick.h:28` promises ok = false on an unretryable error; the retry callback never looks at its future's error and starts over; `Serial.ReportedIff` says exactly when ok = false is reported, and `Traces.TicksTwice` shows the error passing unreported. That trace assumes that the library still serves a range read on a transaction whose commit failed and which on_error did not reset.
- The results of the commit and on_error submissions are ignored (`src/zf_zonetick.c:77`, `112`, `120`), so a failed one ends the run silently (`Serial.SettledIff`, `Traces.LosesCommit`).
- `src/gen/sinew_align.h` says that `sinew_align` writes the recovered rotation. Regularisation can turn exact data of a half turn into another rotation (`Counterexamples.HalfTurnLost`; `AlignQuality.AlignLimit` says exactly when the rotation the answer approximates is R), and can make the answer singular (`Counterexamples.SingularAnswer`; `AlignQuality.AlignOutcome` says exactly when). The column flip can miss the best fit (`Counterexamples.AlignNotBest`).
- `sinew_align` passes `(int)count`, so a count of 2^32 + 1 takes the one-pair path; the model converts the same way.

## Left out

- Floating point: doubles are exact reals, so rounding, overflow and NaN are not modelled; sqrt, atan2, cos and sin are a parameter with their defining equations.
- Kabsch.KabschBestIff: assumes that the Jacobi stage diagonalised h^T h exactly; what it really leaves, at most 1e-19 for every finite h by JacobiEnds.GramEnds, is covered by KabschNear.KabschNearBest, KabschNear.KabschFlatBest and KabschNear.KabschDeficient.
- Kabsch.KabschRecovers: makes the same assumption.
- AlignQuality.AlignRecoversRotation: the fallback clause makes the same assumption.
- AlignQuality.RefusedOutcome: says nothing of the case in which the least singular value above 1e-12 is below 1e-9; the threshold 1e-20 of the rotations is absolute, so the left vectors need not be orthogonal there.
- The polar factors O and S in Reflection, AlignQuality.NegativeLimit and AlignQuality.AlignLimit, which every invertible matrix has, are witnesses, as square roots are in the one-pair formula; NegativeDeterminant.NegativeAnswer needs none.
- Three-vectors in the solver are values; the nine-entry buffers are arrays updated in place.
- Signed 64-bit overflow of a position, undefined in C, wraps around; or-ing disjoint bytes is adding them.
- The tick's callbacks are steps of a machine on values, not methods on a heap object, because calls on several threads interleave; its context, futures and wrappers are counted rather than stored.
- The start of zf_zonetick_run is modelled from the point where the context and the transaction exist; when either cannot be made the function returns -1 and there is no run. done_cb is taken to be set.
- The store is an ordered map; a run's reads see the store as it was when the read was issued, overlaid with its own writes. Other writers of a zone's entities are excluded, as src/zf_zonetick.h:28-31 demands.
- Liveness: how often the library reports retryable errors, and whether a callback ever fires, are left to the environment.
- fdb_async_get, which no modelled code calls, and FoundationDB start-up, database creation and clean-up.
- zf_kv_encode_zone and zf_kv_decode_zone: a raw copy of a struct that nothing calls.
- src/gen/rebac.c: a maximum over a list and a comparison; it would only add easy members.
- src/main.c, src/global_data.h, src/error.h and tools/: options, threads, logging, timing.
