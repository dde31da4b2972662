# Verified models of the orchestrator's algorithms and protocols

The orchestrator drives chat providers through a browser. Under the browser plumbing it
estimates what a provider page is doing with a hidden Markov model and a Kalman filter, limits
and guards calls with a token bucket and a circuit breaker, leases accounts to agents, steps
tasks through a workflow, parses what pages and providers send, and keeps bounded caches. This
project models those parts in Dafny and proves what they are for.

`dafny verify dfyconfig.toml` checks everything, without further options.

| file | models |
|---|---|
| `HiddenStates.dfy`, `Transitions.dfy` | the ten hidden states, the transition table and its reachability test |
| `Emissions.dfy` | the emission model and its online learning |
| `ForwardFilter.dfy`, `HmmEngine.dfy` | the forward filter, against a sum over all state paths, and the engine object |
| `ViterbiDecoder.dfy` | the decoder, against all state paths |
| `Kalman.dfy` | the three-state filter on matrices |
| `TokenBuckets.dfy` | the token bucket, against a sliding window |
| `CircuitBreakers.dfy` | the breaker under overlapping calls |
| `Leases.dfy`, `ExclusiveAccess.dfy` | accounts, leases and the lease manager; when a lease gives exclusive access |
| `LeaseTimes.dfy` | which account a request gets, cooling down, jail, and how long a lease lives |
| `Workflows.dfy` | the workflow engine and its tasks |
| `AriaTree.dfy` | the indentation-stack parser of accessibility snapshots |
| `Text.dfy`, `Cookies.dfy` | Netscape cookie files, printed and parsed |
| `DeltaWalks.dfy` | the explicit-stack walks over JSON messages |
| `Options.dfy`, `FreshIds.dfy`, `Positions.dfy` | values that may be missing, identifiers not yet taken, positions in a growing list |
| `Recency.dfy`, `ResponseCaptures.dfy`, `EnginePools.dfy` | eviction by age, the response store and the engine pool |

Each module states an operation twice: as a function on values, about which the laws are proved,
and, where the program updates things in place, as a class or a loop whose contract ties it to
that function. Runs are lists of calls folded with these functions. A ghost field of a class
(the history of grants, the ticks of the filter, the text received) is what its invariant
relates the real fields to.

## Where code and documentation part

The models follow the code. These promises do not hold of it as written; each comes with an
input that breaks it and the exact condition under which it holds:

- Transition rows are said to sum to exactly 1. They are floored after they are normalised, so
  they sum to 1 exactly when no entry was below the floor (`Transitions.RowSumIsOneIff`,
  `Transitions.CountedRowSumIsOneIff`), and no row of a default table does
  (`Transitions.FreshRowSumIsOneIff`).
- Laplace smoothing is said to keep all transitions above 1e-6 (line 310 of the README of the
  repository). A smoothed entry stays above it exactly when its count plus one exceeds a
  millionth of all counts plus ten (`Transitions.CountedAboveOneMillionth`,
  `Transitions.ManyCountsBreakBothPromises`). In a table that is not yet learned only the
  listed pairs do, unless it was built with a larger epsilon
  (`Transitions.FreshTableAboveOneMillionth`).
- `execute_step` documents TESTING -> REVIEW -> DONE. A passing step goes from TESTING straight
  to DONE (`Workflows.TestingGoesStraightToDone`), and REVIEW is never reached
  (`Workflows.DoneIsAbsorbing`). The events that leave the advertised table of transitions are
  given exactly by `Workflows.StepsFollowTheTable`.
- A jailed account is said to send back only tasks that held leases on it. Tasks bound to no
  account go back too (`Workflows.JailSplitsStatusFromState`), and only those
  (`Workflows.JailKeepsToItsTasksIff`).
- A lease is said to give exclusive access. `release_lease` idles the account even when the
  lease has ended, so releasing twice breaks that (`Leases.DoubleReleaseSharesAnAccount`). The
  exact guard for access is `ExclusiveAccess.AccessIsExclusiveIff`; the stronger invariant, that
  a held account is also in use, has the guard `Leases.ExclusiveIffSafe`.
- `force_expire_leases_for_account` leaves the account in use by nobody
  (`Leases.ForceExpiryStrandsAnAccount`), until exactly the events that free it
  (`Leases.ForceExpiredAccountIsStuck`).
- The breaker admits "a limited number of probe calls". A probe may outlive a reset and give
  back a slot that it does not hold (`CircuitBreakers.StraddlingProbeLeaksASlot`). The limit
  holds as long as no reset happens while a probe is in flight, and the next calls can exceed
  it otherwise (`CircuitBreakers.ProbeLimitOverRuns`,
  `CircuitBreakers.ResetUnderProbeBreaksTheLimit`).
- The breaker stays open for its timeout after a failure. A success recorded while it is open
  clears the count, and a failed probe may then leave it half-open
  (`CircuitBreakers.StragglerDefeatsTheTimeout`). Count and timeout hold exactly in the runs
  without those events (`CircuitBreakers.AgreementOverRuns`, `CircuitBreakers.TimeoutOverRuns`).
- `acquire` for more than the burst never returns; it returns exactly for up to the burst
  (`TokenBuckets.TokenBucket.Acquire`).
- `_extract_deltas_from_obj` is said to pull every string under a delta-like key. It does not
  look into objects inside lists under such keys (`DeltaWalks.AdapterMissesNestedContent`), and
  keeps the promise exactly if there is nothing to take there
  (`DeltaWalks.AdapterFindsAllIffNoneHidden`).
- A saved cookie with an empty value is not loaded back (`Cookies.BlankValueIsLost`); the exact
  condition is `Cookies.LineRoundTrip`.
- The oldest non-chat responses are said to be dropped first. The loop drops them in the order
  of the dictionary, in which a response registered again keeps its place
  (`ResponseCaptures.ReRegisteredGoesFirst`); the two agree exactly if that order is the order
  of start (`ResponseCaptures.OldestNonChatFirstIff`).

One further remark is about the way of computing only: the forward pass is said to run in
log-space (line 309 of the README of the repository), and multiplies probabilities. Over exact
reals this makes no difference.

## Model

| member | source | states |
|---|---|---|
| Transitions.NormalizedIsDistribution | ai_orchestrator/browser_intelligence/estimation/transition_matrix.py:113-119 | dividing a non-negative row of positive sum by its sum gives a probability distribution |
| Transitions.FlooredNormalized | ai_orchestrator/browser_intelligence/estimation/transition_matrix.py:106-111 | a row that is normalised and then floored has every entry at or above 1e-9 and sums to at least 1 and at most 1 + 1e-8, for any non-negative row of positive sum |
| Transitions.RowSumIsOneIff | ai_orchestrator/browser_intelligence/estimation/transition_matrix.py:106-119 | a row stored by normalising and flooring sums to exactly 1 if and only if every entry was at least a billionth of their sum |
| Transitions.FreshRowSumIsOneIff | ai_orchestrator/browser_intelligence/estimation/transition_matrix.py:94-111 | a row of a fresh table sums to exactly 1 if and only if epsilon is still at least 1e-9 after normalising; with the default epsilon every row exceeds 1 |
| Transitions.FreshTableAboveOneMillionth | ai_orchestrator/browser_intelligence/estimation/transition_matrix.py:36-111 | in a fresh table, for any epsilon the constructor accepts, an entry exceeds 1e-6 if and only if its pair is listed among the defaults or epsilon exceeds 1e-6 after normalising; with the default epsilon every unlisted entry is exactly 1e-9 |
| Transitions.CountedAboveOneMillionth | ai_orchestrator/browser_intelligence/estimation/transition_matrix.py:133-157 | a Laplace-smoothed entry exceeds 1e-6 if and only if its count plus one exceeds a millionth of all counts plus ten |
| Transitions.CountedRowSumIsOneIff | ai_orchestrator/browser_intelligence/estimation/transition_matrix.py:133-157 | a Laplace-smoothed row sums to exactly 1 if and only if every count plus one is at least a billionth of all counts plus ten |
| Transitions.ManyCountsBreakBothPromises | ai_orchestrator/browser_intelligence/estimation/transition_matrix.py:133-157 | a count table after which an entry is not above 1e-6 and its row does not sum to 1 |
| Transitions.TransitionMatrix.constructor | ai_orchestrator/browser_intelligence/estimation/transition_matrix.py:26-111 | the table starts near-stochastic: each row is the listed probabilities plus epsilon, normalised, then floored |
| Transitions.TransitionMatrix.NormalizeRow | ai_orchestrator/browser_intelligence/estimation/transition_matrix.py:113-119 | the in-place loop divides the row by its sum, and leaves a row without positive sum alone |
| Transitions.TransitionMatrix.UpdateFromCounts | ai_orchestrator/browser_intelligence/estimation/transition_matrix.py:133-157 | every row with a count becomes the Laplace estimate, every other row stays, and the table stays near-stochastic |
| Transitions.TransitionMatrix.ValidateStochastic | ai_orchestrator/browser_intelligence/estimation/transition_matrix.py:159-166 | the answer is whether each row sum is within the tolerance of 1, and on any table the engine can reach it is yes for the default tolerance |
| Transitions.TransitionMatrix.EnforceStochastic | ai_orchestrator/browser_intelligence/estimation/transition_matrix.py:168-178 | each row becomes its normalised and floored self, and the table stays near-stochastic |
| Transitions.TransitionMatrix.LearnTransitions | ai_orchestrator/browser_intelligence/estimation/hmm_engine.py:160-165 | a state sequence leaves exactly the rows estimated from how often each state is directly followed by each other one in it |
| Transitions.OccurrencesArePositions | ai_orchestrator/browser_intelligence/estimation/hmm_engine.py:160-165 | how often a state is directly followed by another is the number of positions at which the pair stands |
| Transitions.LearnedEntry | ai_orchestrator/browser_intelligence/estimation/transition_matrix.py:133-157 | what a state sequence leaves in each entry: the old value if the sequence never leaves the state, and otherwise the number of positions where it goes there, plus one, over the number of positions where it leaves, plus ten, kept at or above 1e-9 |
| Transitions.ClosureIsReachability | ai_orchestrator/browser_intelligence/estimation/transition_matrix.py:190-193 | all rounds of the closure together hold for a pair if and only if a path of positive entries leads from one to the other, for every matrix |
| Transitions.PivotIsFixed | ai_orchestrator/browser_intelligence/estimation/transition_matrix.py:190-193 | a round leaves its pivot row and column as they were, which is why updating one table in place is sound |
| Transitions.CloseInPlace | ai_orchestrator/browser_intelligence/estimation/transition_matrix.py:183-193 | the in-place triple loop computes that closure |
| Transitions.IsErgodicMatrix | ai_orchestrator/browser_intelligence/estimation/transition_matrix.py:180-199 | on an arbitrary matrix the answer is yes if and only if every state reaches every state along positive entries |
| Transitions.TransitionMatrix.IsErgodic | ai_orchestrator/browser_intelligence/estimation/transition_matrix.py:180-199 | the same for the stored table; on any table the engine can reach it is yes |
| ForwardFilter.AllPathsAreAll | ai_orchestrator/browser_intelligence/estimation/hmm_engine.py:66-75 | the list of state paths of a length that the posterior sums over has every sequence of that length and nothing else |
| ForwardFilter.AllPathsAreDistinct | ai_orchestrator/browser_intelligence/estimation/hmm_engine.py:66-75 | and has each of them once |
| ForwardFilter.MassRecursion | ai_orchestrator/browser_intelligence/estimation/hmm_engine.py:66-75 | one unnormalised tick turns the masses of all paths of length T into those of length T + 1 |
| ForwardFilter.BeliefIsPosterior | ai_orchestrator/browser_intelligence/estimation/hmm_engine.py:58-85 | after any run the belief in a state is the summed weight (prior, transitions, emissions of each tick) of all state paths since the last fallback that end in it, over the summed weight of all of them, with table and emissions changing from tick to tick |
| ForwardFilter.BeliefIsDistribution | ai_orchestrator/browser_intelligence/estimation/belief_state.py:32-36 | every belief of every run is non-negative and sums to exactly 1 |
| ForwardFilter.FallbackOnlyOnTheFloor | ai_orchestrator/browser_intelligence/estimation/hmm_engine.py:77-83 | with a near-stochastic table and floored emissions a tick falls back to uniform if and only if every emission is at 1e-30 and flooring the table added no mass to the prediction |
| ForwardFilter.FallbackIff | ai_orchestrator/browser_intelligence/estimation/hmm_engine.py:77-83 | and that is if and only if every emission is at 1e-30 and every state that carries belief has a row of the table that sums to exactly 1 |
| ForwardFilter.LiftedTableNeverFallsBack | ai_orchestrator/browser_intelligence/estimation/hmm_engine.py:77-83 | if every row of the table sums to more than 1, a tick never falls back, whatever belief and emissions |
| ForwardFilter.UnlearnedNeverFallsBack | ai_orchestrator/browser_intelligence/estimation/hmm_engine.py:58-85 | as long as the table is the one built by default no tick of any run falls back, and the belief is the posterior over all paths of the whole history |
| HmmEngine.HmmEngine.UnlearnedBeliefIsThePosteriorOfAll | ai_orchestrator/browser_intelligence/estimation/hmm_engine.py:58-95 | so it is for the engine in every state reached before its transitions are learned |
| HmmEngine.HmmEngine.BeliefIsThePosterior | ai_orchestrator/browser_intelligence/estimation/hmm_engine.py:58-95 | in every reachable state of the engine, learning included, the stored belief is that posterior, and any tick that fell back had all its emissions on the floor |
| HmmEngine.HmmEngine.constructor | ai_orchestrator/browser_intelligence/estimation/hmm_engine.py:28-36 | the engine starts without a belief and at tick 0 |
| HmmEngine.HmmEngine.Initialize | ai_orchestrator/browser_intelligence/estimation/hmm_engine.py:54-56 | the belief becomes uniform and the history it stands for is empty |
| HmmEngine.HmmEngine.Update | ai_orchestrator/browser_intelligence/estimation/hmm_engine.py:58-95 | one tick extends the history by the table and emissions as they were before it, leaves the posterior of the longer history as belief, and learns from it exactly if learning is on and this is at least the fifth tick; before that the emission model stays |
| HmmEngine.HmmEngine.ForwardPass | ai_orchestrator/browser_intelligence/estimation/hmm_engine.py:62-85 | the loops compute one step of the filter, division or fallback and the tolerant renormalisation of the constructor included |
| HmmEngine.HmmEngine.PostInit | ai_orchestrator/browser_intelligence/estimation/belief_state.py:32-36 | the belief is divided by its sum only if that is positive and off by more than 0.001 |
| HmmEngine.HmmEngine.LearnTransitions | ai_orchestrator/browser_intelligence/estimation/hmm_engine.py:160-165 | the table is re-estimated from the sequence while belief and history stay |
| HmmEngine.HmmEngine.Reset | ai_orchestrator/browser_intelligence/estimation/hmm_engine.py:167-169 | belief and tick count are cleared |
| ViterbiDecoder.BestPreviousIsBest | ai_orchestrator/browser_intelligence/estimation/hmm_engine.py:137-147 | the recorded predecessor scores at least as well as every other one |
| ViterbiDecoder.NoPathBeatsTheTable | ai_orchestrator/browser_intelligence/estimation/hmm_engine.py:127-147 | no way of continuing from a table entry beats the last row of the table |
| ViterbiDecoder.TracedIsFirst | ai_orchestrator/browser_intelligence/estimation/hmm_engine.py:137-155 | where an equally good path last differs from the decoded one, its state comes later in the order of the states |
| ViterbiDecoder.FillTable | ai_orchestrator/browser_intelligence/estimation/hmm_engine.py:124-147 | the nested loops fill exactly the table of best scores and its back pointers |
| ViterbiDecoder.Decode | ai_orchestrator/browser_intelligence/estimation/hmm_engine.py:116-155 | the path read off the back pointers is as long as the observations, no sequence of states of that length scores higher, and of the equally good ones it has the first state where they last differ |
| ViterbiDecoder.ScoreIsLogOfLikelihood | ai_orchestrator/browser_intelligence/estimation/hmm_engine.py:127-146 | the score of a path is the logarithm of its probability, for any logarithm |
| ViterbiDecoder.BestScoreIsMostLikely | ai_orchestrator/browser_intelligence/estimation/hmm_engine.py:127-146 | one path scores at least another if and only if it is at least as probable |
| ViterbiDecoder.MostLikelyPath | ai_orchestrator/browser_intelligence/estimation/hmm_engine.py:116-155 | the decoded path maximises prior times floored transitions times floored emissions over all N^T paths, ties going to the first state where two paths last differ |
| HmmEngine.HmmEngine.Viterbi | ai_orchestrator/browser_intelligence/estimation/hmm_engine.py:116-155 | the same for the observations, table and emission model of the engine |
| Emissions.EmissionModel.constructor | ai_orchestrator/browser_intelligence/estimation/emission_model.py:29-50 | each state starts from its signature, Bernoulli values clamped to 0.05..0.95 and deviations at 50, with no observations |
| Emissions.EmissionModel.EmissionProb | ai_orchestrator/browser_intelligence/estimation/emission_model.py:132-154 | the loops compute the emission probability that the next rows are about: the clamps on reading never act on stored parameters |
| Emissions.ScoreIsLogOfDensity | ai_orchestrator/browser_intelligence/estimation/emission_model.py:138-152 | the summed log-score of a vector is the logarithm of a product with one factor per feature: p or 1 - p by whether a binary feature is present, and the normal density at its mean and deviation for a continuous one |
| Emissions.EmissionIsDensity | ai_orchestrator/browser_intelligence/estimation/emission_model.py:132-154 | so the emission probability is that product, kept at or above 1e-30, for any exponential and logarithm |
| Emissions.OneFeatureDecides | ai_orchestrator/browser_intelligence/estimation/emission_model.py:138-152 | changing one feature does not lower the density of the vector if and only if it does not lower the factor of that feature |
| Emissions.PresenceFavoursIff | ai_orchestrator/browser_intelligence/estimation/emission_model.py:138-143 | above the floor, a binary feature becoming present does not lower the emission probability of a state if and only if the state shows it with probability of at least one half |
| Emissions.ClosenessFavoursIff | ai_orchestrator/browser_intelligence/estimation/emission_model.py:144-152 | above the floor, moving a continuous feature does not lower the emission probability if and only if it does not move away from the mean |
| Emissions.EmissionModel.UpdateFromObservation | ai_orchestrator/browser_intelligence/estimation/emission_model.py:156-179 | one observation moves the parameters of one state towards it, keeping p in 0.01..0.99 and sigma at least 0.1, and counts it |
| Emissions.LearningFavoursWhatWasSeen | ai_orchestrator/browser_intelligence/estimation/emission_model.py:156-179 | learning from a vector never lowers the density that its own binary features have in the state, for any rate |
| Emissions.MeanApproaches | ai_orchestrator/browser_intelligence/estimation/emission_model.py:165-172 | a mean gives up exactly the learning rate as share of its distance to what was seen |
| Emissions.DeviationApproaches | ai_orchestrator/browser_intelligence/estimation/emission_model.py:165-176 | a deviation ends between itself and the squared distance from the old mean |
| Emissions.EmissionModel.UpdateFromSoftAssignment | ai_orchestrator/browser_intelligence/estimation/emission_model.py:181-194 | exactly the states with belief of at least 1e-6 learn, at a rate linear in their belief |
| Emissions.EngineLearningRate | ai_orchestrator/browser_intelligence/estimation/hmm_engine.py:87-93 | the engine learns at 0.01 plus 0.07 times the belief |
| Kalman.MatMul | ai_orchestrator/browser_intelligence/estimation/kalman_filter.py:113-124 | the triple loop computes the matrix product, for any shapes that fit |
| Kalman.PredictKeepsCovariance | ai_orchestrator/browser_intelligence/estimation/kalman_filter.py:50-55 | F P F' + Q is symmetric and positive definite if P is |
| Kalman.UpdateKeepsCovariance | ai_orchestrator/browser_intelligence/estimation/kalman_filter.py:67-86 | (I - K H) P is symmetric and positive definite if P is |
| Kalman.UpdatedQuadratic | ai_orchestrator/browser_intelligence/estimation/kalman_filter.py:83-86 | the form of the updated covariance splits into that of the old one at a shifted vector plus 25 times a square |
| Kalman.RunKeepsCovariance | ai_orchestrator/browser_intelligence/estimation/kalman_filter.py:41-111 | over every sequence of predict, update and reset the covariance is symmetric and positive definite |
| Kalman.UpdateContracts | ai_orchestrator/browser_intelligence/estimation/kalman_filter.py:67-86 | at every update of every run S exceeds R, so the 1e-10 guard never acts, the gain of the length is strictly between 0 and 1, and its variance falls below both its old value and 25 |
| Kalman.SmoothingIsLinear | ai_orchestrator/browser_intelligence/estimation/kalman_filter.py:90-111 | from reset the smoothed lengths and the final state are a linear map of the measurements, for every length, and the covariance depends only on their number |
| Kalman.SmoothedIsTheRunsLength | ai_orchestrator/browser_intelligence/estimation/kalman_filter.py:90-97 | each smoothed value is the length, not the velocity or the acceleration, that one predict and one update per measurement so far arrive at |
| Kalman.FirstLengthIsBetween | ai_orchestrator/browser_intelligence/estimation/kalman_filter.py:90-97 | the first smoothed length lies strictly between 0 and a positive first measurement |
| Kalman.FirstLengthIs | ai_orchestrator/browser_intelligence/estimation/kalman_filter.py:16-97 | and is exactly 226/251 of it, with these noise levels |
| Kalman.LengthMovesTowards | ai_orchestrator/browser_intelligence/estimation/kalman_filter.py:67-82 | an update moves the length strictly towards the measurement and never past it |
| Kalman.PredictionIsKinematic | ai_orchestrator/browser_intelligence/estimation/kalman_filter.py:41-55 | n predictions are motion at constant acceleration: length x + v n + a n n / 2, velocity v + a n |
| Kalman.ExactFilterStaysExact | ai_orchestrator/browser_intelligence/estimation/kalman_filter.py:90-97 | measurements that lie on such a motion, from a filter that stands on it, are returned unchanged, for every number of them |
| Kalman.UpdateBalances | ai_orchestrator/browser_intelligence/estimation/kalman_filter.py:67-82 | the update balances its move against the innovation by the normal equation of least squares, in every component |
| Kalman.ResponseKalmanFilter.constructor | ai_orchestrator/browser_intelligence/estimation/kalman_filter.py:16-39 | the filter starts at zero with covariance 100 |
| Kalman.ResponseKalmanFilter.Predict | ai_orchestrator/browser_intelligence/estimation/kalman_filter.py:41-57 | the state becomes the predicted one and the covariance stays one |
| Kalman.ResponseKalmanFilter.Update | ai_orchestrator/browser_intelligence/estimation/kalman_filter.py:59-88 | the state becomes the corrected one and the covariance stays one |
| Kalman.ResponseKalmanFilter.Smooth | ai_orchestrator/browser_intelligence/estimation/kalman_filter.py:90-97 | for each measurement the result has the length of the state after smoothing the measurements up to it, from whatever state the filter was in |
| Kalman.ResponseKalmanFilter.Reset | ai_orchestrator/browser_intelligence/estimation/kalman_filter.py:105-111 | everything goes back to the start |
| TokenBuckets.GrantedIffWindowAdmits | ai_orchestrator/utils/throttle.py:54-63 | a request is granted if and only if for every earlier instant s, the construction included, what was granted since s and the request together stay within burst + rate x time since s |
| TokenBuckets.GrantedIffWithinTheRate | ai_orchestrator/utils/throttle.py:54-63 | the same with the bound written out: granted since s plus the request is at most burst + rate x (now - s) |
| TokenBuckets.AttemptIsTight | ai_orchestrator/utils/throttle.py:54-63 | after an attempt the level is again the room left in the tightest window, and a grant leaves it non-negative |
| TokenBuckets.RefilledIsTight | ai_orchestrator/utils/throttle.py:77-81 | a refill keeps that relation |
| TokenBuckets.RefillingIsForgotten | ai_orchestrator/utils/throttle.py:65-69 | reading the level in between changes no later state and no later decision |
| TokenBuckets.TokenBucket.Create | ai_orchestrator/utils/throttle.py:23-31 | construction fails exactly on a non-positive rate or burst; the bucket starts full, its burst defaulting to the rate |
| TokenBuckets.TokenBucket.TryAcquire | ai_orchestrator/utils/throttle.py:54-63 | the answer is whether all windows admit the request; a request for nothing is granted without touching the bucket; no window ever exceeds its bound |
| TokenBuckets.TokenBucket.Acquire | ai_orchestrator/utils/throttle.py:36-52 | uncontended, a request that fits the burst returns after at most one sleep, having waited a time that gives exactly its deficit at the rate; a larger one never returns |
| TokenBuckets.TokenBucket.AvailableTokens | ai_orchestrator/utils/throttle.py:65-69 | the level is the refilled one |
| TokenBuckets.TokenBucket.Refill | ai_orchestrator/utils/throttle.py:77-81 | tokens flow in at the rate up to the burst |
| AriaTree.PreorderIsTheLines | ai_orchestrator/browser/accessibility.py:186-239 | the preorder of the tree without its root is exactly the non-blank lines in order, whatever their indentation |
| AriaTree.StackIsTheLiveLines | ai_orchestrator/browser/accessibility.py:231-237 | after any lines the stack is strictly indented, its root is never popped, and the nodes open on it are exactly the lines with a colon such that all later lines are indented further |
| AriaTree.PopToIsShallower | ai_orchestrator/browser/accessibility.py:231-232 | the pop loop keeps exactly the open nodes that are indented less |
| AriaTree.ParsePrinted | ai_orchestrator/browser/accessibility.py:186-239 | any forest printed with any indentation width, colons on inner nodes and on all or no leaves, parses back to itself under the root |
| AriaTree.ParseAria | ai_orchestrator/browser/accessibility.py:186-239 | the loop over lines with its stack of objects builds, by appending to children, an object tree that represents the parsed tree |
| AriaTree.Flatten | ai_orchestrator/browser/accessibility.py:241-244 | flattening an object tree appends its node objects, parent first and children in order, so their labels are the preorder of the tree |
| AriaTree.NodesAreInPreorder | ai_orchestrator/browser/accessibility.py:241-244 | the labels of those objects are the preorder of the tree they represent |
| CircuitBreakers.EveryInterleavingIsAccounted | ai_orchestrator/utils/backoff.py:207-260 | in every interleaving of overlapping calls the counter is the probes started less the probes ended since the last reset and never exceeds the limit, and the probes of the current epoch in flight are the counter plus the older probes that ended since |
| CircuitBreakers.StraddlingProbeLeaksASlot | ai_orchestrator/utils/backoff.py:235-260 | a run in which a probe outlives a reset and two probes are then in flight under a limit of one |
| CircuitBreakers.InStepIff | ai_orchestrator/utils/backoff.py:207-260 | an event keeps every probe in flight in the current epoch if and only if it does not reset the breaker while a probe is in flight |
| CircuitBreakers.ProbeLimitOverRuns | ai_orchestrator/utils/backoff.py:207-260 | over every run that holds throughout if and only if no reset happens while a probe is in flight, and then all probes in flight number the counter, at most the limit |
| CircuitBreakers.ResetUnderProbeBreaksTheLimit | ai_orchestrator/utils/backoff.py:207-260 | the first such reset can be continued, by calls that start, to more probes in flight than the limit |
| CircuitBreakers.AgreesIffNoLateSuccess | ai_orchestrator/utils/backoff.py:182-246 | an event keeps the breaker closed exactly while failures are below the threshold if and only if it records no success while the breaker is open |
| CircuitBreakers.AgreementOverRuns | ai_orchestrator/utils/backoff.py:182-246 | over every run, overlapping or not, that agreement holds throughout if and only if no success is recorded while the breaker is open |
| CircuitBreakers.WaitedIff | ai_orchestrator/utils/backoff.py:182-260 | an event keeps a half-open breaker past its timeout if and only if it records no failure that leaves the breaker half-open |
| CircuitBreakers.TimeoutOverRuns | ai_orchestrator/utils/backoff.py:182-260 | over every run under a clock that never goes back, a half-open breaker has always waited out the timeout since the latest failure if and only if no failure leaves the breaker half-open |
| CircuitBreakers.CountKeepsTheTimeout | ai_orchestrator/utils/backoff.py:182-260 | no failure leaves the breaker half-open in a run without late successes |
| CircuitBreakers.FailuresAreConsecutive | ai_orchestrator/utils/backoff.py:182-260 | over every interleaving the failure count is the number of failures reported, by calls let through or from outside, since the last success reported, and the remembered time is that of the latest failure |
| CircuitBreakers.OverlappingBreaker | ai_orchestrator/utils/backoff.py:182-260 | in every run without late successes, whatever overlaps, a call passes as normal exactly below the threshold, as a probe only after the timeout, and is rejected exactly when the threshold is reached and the timeout has not passed or the slots are taken; a failed probe reopens and a successful one closes |
| CircuitBreakers.TripsOnFailuresInARow | ai_orchestrator/utils/backoff.py:182-260 | in every such run a call passes as normal if and only if fewer failures than the threshold were reported since the last success; otherwise it is rejected while less than the timeout has passed since the latest failure, and then is a probe unless all slots are taken |
| CircuitBreakers.SequentialIsARun | ai_orchestrator/utils/backoff.py:207-246 | calls one after the other are such a run, with nothing left in flight |
| CircuitBreakers.SequentialIsOrderly | ai_orchestrator/utils/backoff.py:182-260 | so between them the counter is 0 and the breaker is closed exactly while failures are below the threshold |
| CircuitBreakers.SequentialBreaker | ai_orchestrator/utils/backoff.py:182-260 | and a call is rejected if and only if the threshold is reached and the timeout since the latest failure has not passed |
| CircuitBreakers.SequentialIsTheHistory | ai_orchestrator/utils/backoff.py:182-260 | calls one after the other are rejected exactly as by a caller who only counts failures in a row and notes the time of the latest: states and slots make no difference |
| CircuitBreakers.StragglerDefeatsTheTimeout | ai_orchestrator/utils/backoff.py:182-260 | for any timeout, a run with a late success that lets a probe through at the very instant of the latest failure |
| CircuitBreakers.CircuitBreaker.constructor | ai_orchestrator/utils/backoff.py:138-165 | the breaker starts closed with nothing counted |
| CircuitBreakers.CircuitBreaker.MaybeTransitionToHalfOpen | ai_orchestrator/utils/backoff.py:250-260 | an open breaker becomes half-open, its counter reset, exactly when the timeout since the latest failure has passed |
| CircuitBreakers.CircuitBreaker.RecordSuccess | ai_orchestrator/utils/backoff.py:182-191 | the breaker after a success, whose count is then 0 and which a half-open breaker ends closed |
| CircuitBreakers.CircuitBreaker.RecordFailure | ai_orchestrator/utils/backoff.py:193-203 | the failure is counted and timed, and at the threshold the breaker opens |
| CircuitBreakers.CircuitBreaker.BeginCall | ai_orchestrator/utils/backoff.py:214-225 | what a call does before its body, as one step |
| CircuitBreakers.CircuitBreaker.FinishCall | ai_orchestrator/utils/backoff.py:228-246 | what a call does after its body, as one step; cancellation records nothing but a probe gives its slot back |
| Leases.ExclusiveIffSafe | ai_orchestrator/orchestrator/lease_manager.py:61-310 | one event keeps every active lease on an in-use account of its own if and only if it neither registers over a held account nor releases an ended lease whose account is held |
| Leases.ExclusiveOverRuns | ai_orchestrator/orchestrator/lease_manager.py:105-310 | over every run, every active lease has an account in use to itself throughout if and only if every event is safe when it happens |
| ExclusiveAccess.ApartIff | ai_orchestrator/orchestrator/lease_manager.py:61-310 | one event keeps any two active leases on different accounts if and only if it is not a request that is granted an account somebody still holds |
| ExclusiveAccess.GuardedIff | ai_orchestrator/orchestrator/lease_manager.py:61-310 | one event keeps leases apart and every held account in use or jailed if and only if it neither registers over a held account as anything else nor releases an ended lease whose account is held |
| ExclusiveAccess.AccessOverRuns | ai_orchestrator/orchestrator/lease_manager.py:61-310 | over every run that holds throughout if and only if every event is safe in this sense, and then no account is ever shared |
| ExclusiveAccess.RequestsEndInSharing | ai_orchestrator/orchestrator/lease_manager.py:105-158 | while an account is both held and available, requests alone end with two active leases on one account |
| ExclusiveAccess.AccessIsExclusiveIff | ai_orchestrator/orchestrator/lease_manager.py:105-178 | from a guarded pool, no requests after an event can put two active leases on one account if and only if the event is safe in this sense |
| Leases.ReleaseExclusiveIff | ai_orchestrator/orchestrator/lease_manager.py:160-178 | releasing keeps exclusivity if and only if the lease is active or nobody holds its account |
| Leases.RegisterExclusiveIff | ai_orchestrator/orchestrator/lease_manager.py:61-67 | registering keeps exclusivity if and only if the new account is in use or the old one is not held |
| Leases.DoubleReleaseSharesAnAccount | ai_orchestrator/orchestrator/lease_manager.py:160-178 | a run of five calls, one lease released twice, that ends with two active leases on one account |
| Leases.ForceExpiredAccountIsStuck | ai_orchestrator/orchestrator/lease_manager.py:297-310 | an account whose leases were force-expired stays in use and held by nobody, so never granted again, throughout a run if and only if no event of the run releases one of its leases or marks or registers it as anything but in use |
| Leases.ForceExpiryStrandsAnAccount | ai_orchestrator/orchestrator/lease_manager.py:297-310 | a pool with one granted account on which that happens |
| Leases.StuckIffNotFreed | ai_orchestrator/orchestrator/lease_manager.py:61-310 | one event leaves such an account as it is if and only if it is none of those |
| Leases.AttendedLeaseSurvives | ai_orchestrator/orchestrator/lease_manager.py:180-219 | a lease whose beats and reclaims come within half its time to live of the last beat is never reclaimed, has all heartbeats accepted, and its deadline never moves back, whatever other leases do |
| Leases.GrantIsKeptUp | ai_orchestrator/models/lease.py:42-48 | a granted lease starts in that condition |
| Leases.CandidatesAreAvailable | ai_orchestrator/orchestrator/lease_manager.py:127-136 | the candidates are exactly the available accounts, of the given provider if any |
| Leases.Healthiest | ai_orchestrator/orchestrator/lease_manager.py:143-144 | the chosen candidate is among them and none is healthier |
| LeaseTimes.ChosenIsTheHealthiest | ai_orchestrator/orchestrator/lease_manager.py:127-144 | a request fails if and only if no account is usable, and otherwise gets the first of the healthiest usable ones: of the preferred provider if that has any, of all if not; usable is idle, warming up, or cooling down until a time that has come |
| LeaseTimes.ReclaimedAccountCoolsDown | ai_orchestrator/orchestrator/lease_manager.py:105-219 | over every run after a reclaim at t ends a lease on an account, while nobody registers, marks or releases it, no request before t + 300 is granted it, it is a candidate if and only if the time is at least t + 300, and alone in the pool it is granted exactly from then on |
| LeaseTimes.IdleIsConsidered | ai_orchestrator/models/account.py:56-66 | an idle account or one that warms up is always a candidate, so a request is granted |
| LeaseTimes.ReleasedAccountIsUsable | ai_orchestrator/orchestrator/lease_manager.py:160-178 | a released account may be granted at once, its cooldown and failures cleared |
| LeaseTimes.JailedAccountIsNeverGranted | ai_orchestrator/orchestrator/lease_manager.py:240-276 | over every run an account marked as jailed is granted to nobody until it is registered anew, marked or released |
| LeaseTimes.HeartbeatExtends | ai_orchestrator/models/lease.py:50-56 | a heartbeat is accepted up to the deadline and no later, and moves it to 300 seconds from now if less than 150 are left |
| LeaseTimes.ReclaimEndsIff | ai_orchestrator/orchestrator/lease_manager.py:200-219 | a reclaim ends an active lease if and only if its deadline has passed |
| LeaseTimes.UnattendedLeaseEnds | ai_orchestrator/orchestrator/lease_manager.py:180-219 | over every run a lease that nobody beats is not active after any reclaim later than 300 seconds from its last beat |
| Leases.LeaseManager.RegisterAccount | ai_orchestrator/orchestrator/lease_manager.py:61-67 | the account is added or replaced, keeping its place |
| Leases.LeaseManager.RequestLease | ai_orchestrator/orchestrator/lease_manager.py:105-158 | the account chosen for the request gets a fresh active lease for 300 seconds and is in use; without one nothing changes |
| Leases.LeaseManager.Choose | ai_orchestrator/orchestrator/lease_manager.py:127-144 | the loops pick that account |
| Leases.LeaseManager.ReleaseLease | ai_orchestrator/orchestrator/lease_manager.py:160-178 | a known lease ends whatever its state and its account is idled |
| Leases.LeaseManager.RecordHeartbeat | ai_orchestrator/orchestrator/lease_manager.py:180-198 | a heartbeat is accepted exactly on a known, active lease that is not past its deadline |
| Leases.LeaseManager.ReclaimExpired | ai_orchestrator/orchestrator/lease_manager.py:200-219 | exactly the overdue active leases expire and are returned, and exactly their accounts cool down |
| Leases.LeaseManager.MarkAccountUnavailable | ai_orchestrator/orchestrator/lease_manager.py:240-276 | the account changes state and loses all its active leases, and an event with one of them is emitted if and only if the state changed |
| Leases.LeaseManager.ForceExpireLeasesForAccount | ai_orchestrator/orchestrator/lease_manager.py:297-310 | exactly the active leases of the account expire and are returned, and the account is left as it is |
| Leases.Lease.Activate | ai_orchestrator/models/lease.py:42-48 | the lease is active until its time to live from now |
| Leases.Lease.Heartbeat | ai_orchestrator/models/lease.py:50-56 | the beat is recorded and the deadline moves only if less than half the time is left |
| Leases.Lease.CheckExpired | ai_orchestrator/models/lease.py:74-80 | an active lease past its deadline expires |
| Leases.Lease.IsAlive | ai_orchestrator/models/lease.py:92-99 | a lease is alive exactly if active and not past its deadline |
| Leases.Account.IsAvailable | ai_orchestrator/models/account.py:56-66 | the answer is the one that requests go by: yes for idle and warming up, and for cooling down from the deadline on |
| Leases.Account.EnterCooldown | ai_orchestrator/models/account.py:98-101 | the account cools down for the given time |
| Leases.Account.MarkIdle | ai_orchestrator/models/account.py:110-119 | the account is idle with cooldown and failures cleared |
| Workflows.StepsAreBounded | ai_orchestrator/orchestrator/workflow_engine.py:180-215 | since the last start or resume each action hash passed at most three times, so with k hashes at most 3k steps advanced, over every run |
| Workflows.CountsAreAttempts | ai_orchestrator/orchestrator/workflow_engine.py:267-278 | over every run the count of a hash is the number of steps with it that were taken up since the last start or resume |
| Workflows.StepDoes | ai_orchestrator/orchestrator/workflow_engine.py:180-252 | after every run a step raises if and only if the task is done or halted, halts it if and only if the hash was attempted three times since the last start or resume, and otherwise advances: planning and fix to executing, executing to testing whatever was reported, testing to fix if it failed and to done if not, each with its status |
| Workflows.HaltedOnlyByHandOrLoop | ai_orchestrator/orchestrator/workflow_engine.py:180-285 | after every run halted is entered if and only if the task is not done and is halted by hand or attempts a hash for the fourth time |
| Workflows.DoneIffATestPassed | ai_orchestrator/orchestrator/workflow_engine.py:180-252 | a started task whose hashes come up at most three times each is done after any list of steps if and only if some third step did not fail, whatever the others reported; until then it goes round executing, testing and fixing |
| Workflows.StatusAgrees | ai_orchestrator/orchestrator/workflow_engine.py:98-112 | after every run the task status is the image of the workflow state if and only if no jailed account was the last to move the workflow; then it is back at planning, and the next step that passes restores agreement |
| Workflows.DoneIsAbsorbing | ai_orchestrator/orchestrator/workflow_engine.py:217-252 | over every run done is entered only by a step out of testing that did not fail, is never left, and review is never entered |
| Workflows.StepsFollowTheTable | ai_orchestrator/orchestrator/workflow_engine.py:26-35 | after every run, an event that changes the state follows the advertised table if and only if it is not a halt from elsewhere than executing, by hand or by the loop breaker, a resume, a jail, or a step out of testing that did not fail |
| Workflows.TestingGoesStraightToDone | ai_orchestrator/orchestrator/workflow_engine.py:241-252 | a run of three steps that went well after which the third goes from testing to done, which the table does not list |
| Workflows.JailSplitsStatusFromState | ai_orchestrator/orchestrator/workflow_engine.py:98-112 | a run after which a jailed account, whichever it is, has sent back a task bound to none, its status still executing |
| Workflows.JailKeepsToItsTasksIff | ai_orchestrator/orchestrator/workflow_engine.py:98-112 | a jail event can send back a task that is not bound to the jailed account if and only if the task is running and bound to none |
| Workflows.AtMostThreeEach | ai_orchestrator/orchestrator/workflow_engine.py:267-278 | a list with no element more than three times is at most three times as long as the set that covers it |
| Workflows.Task.TransitionTo | ai_orchestrator/models/task.py:63-83 | a different status is refused exactly in done and dead-letter |
| Workflows.WorkflowEngine.StartTask | ai_orchestrator/orchestrator/workflow_engine.py:132-140 | only an idle task starts; it is planning, at step 0, with no counts |
| Workflows.WorkflowEngine.ExecuteStep | ai_orchestrator/orchestrator/workflow_engine.py:180-215 | the reply and the whole new row of the task, refusals, loop breaker and stalls included; other tasks stay |
| Workflows.WorkflowEngine.HandleLoopDetection | ai_orchestrator/orchestrator/workflow_engine.py:267-278 | the hash is counted, and the fourth time tells to halt |
| Workflows.WorkflowEngine.HaltTask | ai_orchestrator/orchestrator/workflow_engine.py:280-285 | the task halts unless done or in the dead-letter queue |
| Workflows.WorkflowEngine.ResumeTask | ai_orchestrator/orchestrator/workflow_engine.py:287-297 | a halted task plans again with its counts and steps reset |
| Workflows.WorkflowEngine.HandleAccountEvent | ai_orchestrator/orchestrator/workflow_engine.py:98-112 | on jail exactly the running tasks bound to the account, or to none, go back to planning, their task status untouched |
| Workflows.WorkflowEngine.BindTaskAccount | ai_orchestrator/orchestrator/workflow_engine.py:114-116 | the binding of one task changes |
| Workflows.WorkflowEngine.UnbindTaskAccount | ai_orchestrator/orchestrator/workflow_engine.py:118-120 | the binding of one task goes |
| Cookies.CookiesToNetscape | ai_orchestrator/adapters/auto_cookie_update.py:22-43 | the loop prints the header and one line per named cookie |
| Cookies.NetscapeToCookies | ai_orchestrator/adapters/cookie_to_storage_state.py:33-80 | the loop returns the first cookie of each key of the lines that hold one, in order |
| Cookies.FirstWins | ai_orchestrator/adapters/cookie_to_storage_state.py:58-61 | keys are unique in the result, none is lost, and a cookie is in it if and only if it is the first with its key |
| Cookies.LineRoundTrip | ai_orchestrator/adapters/cookie_to_storage_state.py:37-75 | a printed cookie without tabs or line breaks parses back to itself if and only if its domain starts with neither space nor #, and its value is not empty, not quoted and does not end in a space |
| Cookies.BlankValueIsLost | ai_orchestrator/adapters/cookie_to_storage_state.py:38-43 | a cookie with an empty or blank value is printed but not read back |
| Cookies.PrintedExpiry | ai_orchestrator/adapters/cookie_to_storage_state.py:52-56 | a printed expiry is read back if positive and as -1 otherwise |
| Cookies.RoundTrip | ai_orchestrator/adapters/auto_cookie_update.py:22-43 | saving and loading a list of such cookies gives back each named one, in order, first-wins on domain, name and path |
| Cookies.SavedAndLoaded | ai_orchestrator/adapters/auto_cookie_update.py:22-43 | what one browser cookie becomes: the hinted domain, the root path, not secure and no expiry where it does not say, its expiry cut to a whole number; one without a name is gone |
| Cookies.PrintedColumns | ai_orchestrator/adapters/auto_cookie_update.py:31-41 | a printed line has seven columns, the second telling domains that start with a dot and the fourth secure cookies |
| Cookies.ParsedColumns | ai_orchestrator/adapters/cookie_to_storage_state.py:37-56 | any line of at least seven columns is a cookie, whatever is in the second and after the seventh; quotes around the value go, and secure is TRUE in any case |
| Cookies.OverrideChangesDomainsOnly | ai_orchestrator/adapters/cookie_to_storage_state.py:58-75 | loading for another domain gives the same cookies, only with that domain |
| DeltaWalks.WalkLoop | ai_orchestrator/browser_intelligence/engine.py:135-153 | the loop over stack and visited set ends, never skips a node of a tree, and returns what the recursive walk does: own matches, then children from last to first |
| DeltaWalks.WalkLosesNothing | ai_orchestrator/browser_intelligence/engine.py:135-153 | the walk returns each match as often as reading from top to bottom does, only in another order |
| DeltaWalks.LaterBranchComesFirst | ai_orchestrator/browser_intelligence/engine.py:135-153 | that order: what lies inside a later entry comes before what lies inside an earlier one |
| DeltaWalks.WalkDeltaStrings | ai_orchestrator/browser_intelligence/engine.py:129-153 | the engine's walk is the recursive one for its keys |
| DeltaWalks.EngineFindsAll | ai_orchestrator/browser_intelligence/intelligence/response_capture.py:365-386 | the walk finds a key and text if and only if they occur in the message, at any depth |
| DeltaWalks.ExtractDeltas | ai_orchestrator/adapters/engine_adapter.py:1024-1058 | the adapter's walk is the recursive one that does not go into lists under its keys |
| DeltaWalks.AdapterFindsAllIffNoneHidden | ai_orchestrator/adapters/engine_adapter.py:1025-1031 | what the adapter returns and what lies in containers inside lists under its keys together are all it promises; it keeps its promise if and only if no such list has, at any depth inside its containers, an entry with a usable text |
| DeltaWalks.AdapterMissesNestedContent | ai_orchestrator/adapters/engine_adapter.py:1048-1053 | a message with an object in a list of contents from which the adapter gets nothing |
| ResponseCaptures.TailOfTail | ai_orchestrator/browser_intelligence/intelligence/response_capture.py:74-77 | cutting a text after every chunk keeps the same tail as cutting once at the end |
| ResponseCaptures.TrimPolicy | ai_orchestrator/browser_intelligence/intelligence/response_capture.py:250-270 | at most 256 responses stay, in order; a chat response goes only if no other response is left, and then none that goes is younger than one that stays |
| ResponseCaptures.OneTooMany | ai_orchestrator/browser_intelligence/intelligence/response_capture.py:250-270 | with one too many, two non-chat responses go if there are two, one if there is one, and otherwise the oldest chat response |
| ResponseCaptures.OldestNonChatFirstIff | ai_orchestrator/browser_intelligence/intelligence/response_capture.py:253-261 | however many go, the non-chat responses that go are no younger than those that stay if and only if the non-chat responses stand in order of start |
| ResponseCaptures.ReRegisteredGoesFirst | ai_orchestrator/browser_intelligence/intelligence/response_capture.py:253-261 | two responses out of that order, of which the younger goes |
| ResponseCaptures.DropNonChatKeepsChat | ai_orchestrator/browser_intelligence/intelligence/response_capture.py:254-261 | the first loop drops non-chat responses only, as many as asked for or as there are |
| Recency.DropOldestIsByAge | ai_orchestrator/browser_intelligence/intelligence/response_capture.py:263-270 | what is dropped for age is no younger than anything kept, as many as asked for, the rest in order |
| ResponseCaptures.CapturedResponse.Append | ai_orchestrator/browser_intelligence/intelligence/response_capture.py:71-81 | the text is the last 2,000,000 characters of everything received |
| ResponseCaptures.CapturedResponse.Close | ai_orchestrator/browser_intelligence/intelligence/response_capture.py:83-86 | the stream is closed and the text stays |
| ResponseCaptures.ResponseCapture.BeginResponse | ai_orchestrator/browser_intelligence/intelligence/response_capture.py:117-151 | what is tracked becomes the trimming of the old entries with the new one added or put in place of its namesake |
| ResponseCaptures.ResponseCapture.TrimTracked | ai_orchestrator/browser_intelligence/intelligence/response_capture.py:250-270 | the loops over the dictionary compute that trimming |
| ResponseCaptures.ResponseCapture.AppendChunk | ai_orchestrator/browser_intelligence/intelligence/response_capture.py:153-171 | a chunk is accepted exactly if not empty and for a tracked chat response, whose received text it extends; all others stay |
| ResponseCaptures.ResponseCapture.CloseResponse | ai_orchestrator/browser_intelligence/intelligence/response_capture.py:173-191 | a tracked response is closed and no longer tracked; the closed list is the last 32 closed chat responses |
| ResponseCaptures.ResponseCapture.Discard | ai_orchestrator/browser_intelligence/intelligence/response_capture.py:193-194 | one response is no longer tracked |
| ResponseCaptures.ResponseCapture.Reset | ai_orchestrator/browser_intelligence/intelligence/response_capture.py:196-199 | nothing is tracked or kept |
| ResponseCaptures.ResponseCapture.GetResponseText | ai_orchestrator/browser_intelligence/intelligence/response_capture.py:209-234 | the text is that of the first of the youngest tracked chat responses with text, or else of the last closed one with text, or else empty |
| EnginePools.RunIsSound | ai_orchestrator/browser_intelligence/pool.py:98-190 | over every run of get, release, release-all and gc the size is misses minus evictions and at most the limit, and addresses and engines are unique |
| EnginePools.EvictsTheLeastRecentlyUsed | ai_orchestrator/browser_intelligence/pool.py:176-190 | what a miss on a full pool evicts was used no later than anything that stays |
| EnginePools.HitsAndMissesAreGets | ai_orchestrator/browser_intelligence/pool.py:98-126 | over every run hits and misses together are the calls that asked for an engine |
| EnginePools.SizeAfterGet | ai_orchestrator/browser_intelligence/pool.py:98-190 | a miss evicts just enough: it leaves all entries if they fit and exactly the limit if not |
| EnginePools.EntriesComeFrom | ai_orchestrator/browser_intelligence/pool.py:98-150 | after any call each entry is as before, except that of the page that asked, which is stamped with the time and has one more use or is new |
| EnginePools.StampIsTheLastGet | ai_orchestrator/browser_intelligence/pool.py:98-190 | over every run the stamp of an entry is the time at which its page last asked |
| EnginePools.EvictsTheLeastRecentlyAsked | ai_orchestrator/browser_intelligence/pool.py:176-190 | so after every run what a miss on a full pool evicts belongs to a page that last asked no later than the page of anything that stays |
| EnginePools.JustReturnedIsPooled | ai_orchestrator/browser_intelligence/pool.py:98-126 | the engine just returned is pooled if and only if the limit is at least one |
| EnginePools.SameEngineIffPooled | ai_orchestrator/browser_intelligence/pool.py:98-126 | a page gets an engine again if and only if that engine is pooled for it |
| EnginePools.SameEngineUntilEvicted | ai_orchestrator/browser_intelligence/pool.py:98-150 | after any further calls a get returns the engine that a page was given if and only if it is for that page and the engine was not evicted |
| EnginePools.EngineStaysWithItsPage | ai_orchestrator/browser_intelligence/pool.py:98-150 | no call moves an engine to another page or brings an evicted one back |
| EnginePools.ReleaseGoesByAddress | ai_orchestrator/browser_intelligence/pool.py:128-131 | releasing a page takes the entry of whatever page is at its address |
| EnginePools.LivelyIsASelection | ai_orchestrator/browser_intelligence/pool.py:144-147 | what collection keeps is exactly the entries idle for no longer than the time to live, in order |
| EnginePools.EnginePool.constructor | ai_orchestrator/browser_intelligence/pool.py:60-74 | the pool starts empty with its counters at zero |
| EnginePools.EnginePool.GetOrCreate | ai_orchestrator/browser_intelligence/pool.py:98-126 | engine, entries and counters after a hit, a miss or a page replaced at the same address |
| EnginePools.EnginePool.Release | ai_orchestrator/browser_intelligence/pool.py:128-131 | the entry at the address goes |
| EnginePools.EnginePool.ReleaseAll | ai_orchestrator/browser_intelligence/pool.py:133-137 | all entries go and are counted |
| EnginePools.EnginePool.Gc | ai_orchestrator/browser_intelligence/pool.py:139-150 | exactly the stale entries go, and their number is returned |
| EnginePools.EnginePool.Evict | ai_orchestrator/browser_intelligence/pool.py:165-169 | an entry goes and is counted, if there is one |
| EnginePools.EnginePool.EnforceCapacity | ai_orchestrator/browser_intelligence/pool.py:176-190 | the least recently used entries beyond the limit go and are counted |
| EnginePools.PoolEntry.Touch | ai_orchestrator/browser_intelligence/pool.py:45-47 | the use is stamped and counted |

## Left out

- Floating point: all arithmetic is over exact reals. The transition table stores probabilities
  where the code stores their logarithms and reads them back through `exp`; the two cancel.
- Numerics: the exponential, the logarithm and the root of 2 pi are parameters. The decoder asks
  of the logarithm that it turns products into sums and keeps the order, the laws of the emission
  model ask that the exponential turns sums into products, keeps the order and undoes the
  logarithm, and the filter asks nothing.
- Environment: clock readings, fresh identifiers, the identity of pages and JSON objects, and
  classifier and key tests come in as parameters. A section under a lock, or between two
  suspension points of one event loop, is one atomic step; other thread interleavings are not
  modelled.
- Names of accounts, leases, providers, tasks, actions and requests are numbers: only their
  equality matters.
- Emissions.EmissionModel.constructor: takes the default signatures as an argument; their values are not listed.
- Emissions.EmissionModel.UpdateFromObservation: does not model the time of the last update, which nothing reads.
- TokenBuckets.TokenBucket.Acquire: models one waiter with nobody else drawing tokens, and a given number of wake-ups, each as late as it likes; under contention there is no bound to prove.
- CircuitBreakers.CircuitBreaker.FinishCall: the two exception branches are one outcome, and the result of the body is not passed through.
- Leases.LeaseManager.RequestLease: leases carry no task and agent names and no acquisition time; registering in a batch is registering one by one.
- Leases.LeaseManager.MarkAccountUnavailable: returns the event to emit; calling the handlers is not modelled.
- Leases.Account.EnterCooldown: the only transitions of accounts modelled are those the manager makes; `record_success`, `record_failure` and `record_rate_limit` are left out, and so is `Lease.renew`, which the manager never calls.
- Workflows.WorkflowEngine.ExecuteStep: step names, agent types, error messages and time stamps are not modelled, nor is raising told apart by message.
- AriaTree.ParseAria: a line is already reduced to indentation, one label and whether it ends with a colon; quotes, brackets and values inside a line are not lexed, and the fields of a node are one label.
- Cookies.NetscapeToCookies: digits are the ASCII ones; the file is already read, and cookies are returned without the constant keys and the wrapper around the list.
- DeltaWalks.WalkLoop: the JSON text is already parsed to a finite tree; a structure with shared containers is not modelled, since parsing yields none. `_walk_path` and `_coerce_sse_text` are left out.
- ResponseCaptures.ResponseCapture.BeginResponse: the URL index, which nothing evicts or reads, and the request's metadata are not modelled; sorting by age and cutting is modelled as removing the oldest repeatedly, which for a stable sort is the same.
- EnginePools.EnginePool.GetOrCreate: attaching and detaching engines are browser calls and are left out, and an engine is named by the number of engines made before it.
- Kalman.ResponseKalmanFilter.Smooth: the unused list of times is dropped.
- Queries that read one field or compute a display value (`entropy`, `confidence`, `row_sums`, `velocity`, `stats`, `list_accounts`), the adaptive readiness threshold, plan building, the concurrency limiter and the limiter registry: easy members that would add no hard proof.
- Browser input and output, HTTP endpoints, persistence, cryptography, prompt classification, metrics and logging.
