# Cosolver2SA: a verified model of the TTP co-solver

This project models the co-evolutionary Travelling Thief Problem solver
`Cosolver2SA` of the ttplab repository in Dafny, and proves what it
promises. The solver has two parts:

- **The knapsack simulated annealer** (`simulatedAnnealing`). The tour stays
  fixed. Each trial draws an item and skips it if adding it would overflow
  the knapsack. Otherwise it evaluates the flipped plan by recomputing travel
  time only from the flip position to the end of the tour, and accepts the
  flip on a positive gap or a passed Boltzmann test. An accepted flip
  rewrites the suffix of `weightAcc` and `timeAcc` in place and updates
  `ob`, `fp`, `ft` and `wend`. The best snapshot is refreshed once per
  temperature step. The temperature cools geometrically from 100 to 1.
- **The co-solver loop** (`solve`). Each round runs the 2-opt tour search and
  then the annealer. The loop stops at the first round with no strict gain
  over the best objective, or when the thread is interrupted.

Layout:

- `ttp.dfy` (module `Ttp`): the instance and the from-scratch evaluation of a
  solution. Carried weight after each tour position, cumulative travel time
  and net objective `fp - ft * R` are reference functions. Lemmas relate a
  single bit-flip to them.
- `solution.dfy` (module `TtpSolution`): the mutable `Solution` class with
  its arrays and scalars. `Valid` ties every derived field to the
  from-scratch evaluation. Also the full recomputation (`ttp.objective`)
  and the deep copy (`clone`), through the `Snapshot` value type.
- `cosolver2sa.dfy` (module `Cosolver2SA`): the trial budget, the trial
  evaluation and the in-place commit, the annealing schedule, and the
  co-solver loop with its termination proof.

The central result: after every accepted flip, the suffix-only update of
the arrays equals a full traversal of the flipped plan, and the prefix is
untouched (`CommitSuffix`, `CommitFlip`). The candidate objective tested for
acceptance is the objective of a from-scratch evaluation (`EvaluateFlip`),
and it is exactly the objective the commit stores (`Trial`).

Randomness, the Boltzmann test and thread interruption are inputs: the
`Env` and `SolveEnv` datatypes hold them as functions of the trial, step or
round index.

## Model

| member | source | states |
|---|---|---|
| Cosolver2SA.TrialFactor | src/main/java/solver/Cosolver2SA.java:131-143 | the trial factor is positive and at most 1000 |
| Cosolver2SA.Trials | src/main/java/solver/Cosolver2SA.java:149 | the trial count (1000n, 100n, 50n, 10n, n, (4n+50)/100 or (3n+50)/100 by band) is positive exactly when there are items |
| Cosolver2SA.TrialsRounded | src/main/java/solver/Cosolver2SA.java:131-149 | the trial count is `nbItems * trialFactor` rounded half up, as `Math.round` does |
| Cosolver2SA.TrialFactorAntitone | src/main/java/solver/Cosolver2SA.java:131-143 | more items never means a larger trial factor |
| Cosolver2SA.FlipSuffix | src/main/java/solver/Cosolver2SA.java:168-190 | an admissible flip keeps the plan feasible; the flipped plan's weights are the old `weightAcc` shifted by `deltaW` from `origBF` on; its times before `origBF` are the old `timeAcc` entries |
| Cosolver2SA.CommitSuffix | src/main/java/solver/Cosolver2SA.java:219-228 | vectors that keep the old prefix and hold the flipped plan's weights and times from `origBF` on are the full-traversal vectors of the flipped plan |
| Cosolver2SA.CommitConsistent | src/main/java/solver/Cosolver2SA.java:211-233 | with `fp += deltaP`, `ft` the last new time, `ob = fp - ft * R` and `wend = capacity - weightAcc[last]`, the committed state satisfies every solution invariant |
| Cosolver2SA.EvaluateFlip | src/main/java/solver/Cosolver2SA.java:170-192 | the suffix-only evaluation gives the profit, travel time and objective G of a from-scratch evaluation of the flipped plan, and changes nothing |
| Cosolver2SA.SuffixTime | src/main/java/solver/Cosolver2SA.java:184-190 | from the prefix time at `origBF`, adding the legs under shifted weights gives the total travel time |
| Cosolver2SA.RecoverLeg | src/main/java/solver/Cosolver2SA.java:221-227 | one leg of the recovery loop: position r gets the shifted weight and the running time, which is the time of the first r + 1 legs of the flipped plan; no other entry changes |
| Cosolver2SA.RecoverSuffix | src/main/java/solver/Cosolver2SA.java:219-228 | entries before `origBF` are untouched; each entry from it on holds the shifted weight and the running time of the full traversal |
| Cosolver2SA.CommitFlip | src/main/java/solver/Cosolver2SA.java:206-233 | the plan is toggled at k; the solution stays valid; `ob` is the from-scratch objective; the prefix is unchanged; suffix weights move by `deltaW` |
| Cosolver2SA.RecoverAccumulation | src/main/java/solver/Cosolver2SA.java:211-233 | after the flip, re-deriving the deltas from the flipped entry and rebuilding the suffix gives a valid solution for the flipped plan |
| Cosolver2SA.TrialOutcome | src/main/java/solver/Cosolver2SA.java:168-236 | one trial on values: a failed capacity guard keeps the plan; otherwise the result is the plan or its toggle, and a toggle whose gap is not negative is always kept (exp(0) = 1 > mu) |
| Cosolver2SA.Trial | src/main/java/solver/Cosolver2SA.java:165-236 | a failed capacity guard is never accepted; otherwise acceptance is exactly `gap > 0` or a passed Boltzmann test, and a zero gap is always accepted, with G the from-scratch objective of the flipped plan; acceptance commits the toggle and sets the chain energy to the stored `ob`; rejection changes no field; with the chain energy at `sol.ob` the new plan is TrialOutcome |
| Cosolver2SA.StepPlan | src/main/java/solver/Cosolver2SA.java:162-238 | the plan after a run of trials, each on the item drawn for its index, is a feasible plan over the same tour; a run of zero trials leaves the plan as it is |
| Cosolver2SA.StepTrial | src/main/java/solver/Cosolver2SA.java:164-236 | trial u of a step draws its item and runs the trial against the live objective: the plan of the first u trials becomes the plan of the first u + 1, and the chain energy stays the live `sol.ob` |
| Cosolver2SA.TemperatureStep | src/main/java/solver/Cosolver2SA.java:162-238 | the new plan is StepPlan of the old one, every trial applied in draw order; the solution is valid, tour and index are unchanged, the chain energy equals the live `sol.ob`, and the draw index advances by `trials` |
| Cosolver2SA.Cooling | src/main/java/solver/Cosolver2SA.java:251-254 | above the floor, one cooling step lowers T by at least 0.05 and keeps it positive, so the schedule terminates |
| Cosolver2SA.KeepBest | src/main/java/solver/Cosolver2SA.java:240-243 | the kept snapshot is the old one or a copy of `sol`, is no worse than either, and is replaced only on a strict gain |
| Cosolver2SA.Temperature | src/main/java/solver/Cosolver2SA.java:251 | the temperature of every step is positive and at most the start temperature 100 |
| Cosolver2SA.StepsRun | src/main/java/solver/Cosolver2SA.java:156-160 | the number of steps run is the first step at which the thread is found interrupted or the temperature is at or below the floor; every earlier step runs, uninterrupted and above the floor |
| Cosolver2SA.StepsRunStop | src/main/java/solver/Cosolver2SA.java:158-159 | a step at which the thread is found interrupted ends the schedule: no step runs from it |
| Cosolver2SA.StepsRunNext | src/main/java/solver/Cosolver2SA.java:251-254 | a completed step cools by `alpha`; the run ends after it exactly when the new temperature is at or below the floor |
| Cosolver2SA.ScheduledPlan | src/main/java/solver/Cosolver2SA.java:156-254 | the plan after i steps of `Trials(nbItems)` trials at the decaying temperatures is a feasible plan on the same tour |
| Cosolver2SA.StepEnds | src/main/java/solver/Cosolver2SA.java:240-243 | entry i is the objective of the live solution at the end of step i, that is of the plan after i + 1 steps |
| Cosolver2SA.ScheduleAdvance | src/main/java/solver/Cosolver2SA.java:162-243 | running step n on the plan of n steps gives the plan of n + 1 steps, and its objective extends the step ends |
| Cosolver2SA.AnnealStep | src/main/java/solver/Cosolver2SA.java:162-238 | one temperature step turns the plan of n steps into the plan of n + 1 steps and appends the new objective to the step ends |
| Cosolver2SA.ScheduleStep | src/main/java/solver/Cosolver2SA.java:155-254 | one pass of the do-while from the state of n steps: the plan, the step ends and the best snapshot become those of n + 1 steps, the temperature becomes Temperature(n + 1), and the loop stops there exactly when StepsRun says the schedule ends after n + 1 steps |
| Cosolver2SA.BestStep | src/main/java/solver/Cosolver2SA.java:240-243 | the best snapshot's position is the first maximum of the input objective and the step ends: no worse than any, and strictly better than the input and every earlier end |
| Cosolver2SA.BestOf | src/main/java/solver/Cosolver2SA.java:240-243 | the best objective is the maximum of the input objective and the step ends, and is one of them |
| Cosolver2SA.BestAppend | src/main/java/solver/Cosolver2SA.java:240-243 | a new step end replaces the best snapshot exactly when it is strictly better |
| Cosolver2SA.BestRising | src/main/java/solver/Cosolver2SA.java:240-243 | the best objective after fewer steps is never above the best after more steps |
| Cosolver2SA.Schedule | src/main/java/solver/Cosolver2SA.java:156-254 | the schedule runs exactly StepsRun steps; the live plan is the plan after them and `ends` are the step-end objectives; the best snapshot holds the plan of the first best among the input and the step ends, and its objective is their maximum, no worse than the live solution; interrupted at once, it is the input |
| Cosolver2SA.Materialize | src/main/java/solver/Cosolver2SA.java:256-260 | a consistent best snapshot becomes a fresh valid solution whose contents are exactly that snapshot |
| Cosolver2SA.SimulatedAnnealing | src/main/java/solver/Cosolver2SA.java:93-261 | the result is a fresh valid solution, re-evaluated from scratch, on the same tour, holding the first best plan among the input and the step ends with their maximum objective; the input object is left valid, on the plan of the last step; interrupted at once, it is a copy of the input |
| Cosolver2SA.AnnealOutcome | src/main/java/solver/Cosolver2SA.java:93-261 | the annealer on values: same tour and index, objective the maximum of the input and the step ends, never worse than the input |
| Cosolver2SA.TwoOptOutcome | src/main/java/solver/Cosolver2SA.java:55-56 | the tour search on values: same plan; the result is the input or the proposed tour with a strictly better objective |
| Cosolver2SA.RoundOutcome | src/main/java/solver/Cosolver2SA.java:55-59 | one round on values yields a feasible configuration never worse than its input |
| Cosolver2SA.Rounds | src/main/java/solver/Cosolver2SA.java:51-80 | the configuration after i rounds is feasible and never worse than the initial one |
| Cosolver2SA.Ls2opt | src/main/java/solver/Cosolver2SA.java:55-56 | the tour search keeps the picking plan, never worsens the objective, and returns TwoOptOutcome |
| Cosolver2SA.Round | src/main/java/solver/Cosolver2SA.java:55-59 | one round returns a fresh valid solution no worse than its input, holding RoundOutcome |
| Cosolver2SA.ObjectiveAttainable | src/main/java/solver/Cosolver2SA.java:61-65 | a valid solution's objective lies in a finite set of values fixed by the instance |
| Cosolver2SA.AboveShrinks | src/main/java/solver/Cosolver2SA.java:61-65 | a strict gain of `GBest` leaves strictly fewer attainable values above it (the termination measure of `solve`) |
| Cosolver2SA.Record | src/main/java/solver/Cosolver2SA.java:61-65 | helper for the `history` trace: appending a round's objective keeps the old history as prefix, and a strict gain keeps the gains strict |
| Cosolver2SA.TracedAppend | src/main/java/solver/Cosolver2SA.java:51-65 | the objective after one more round extends the history of round objectives |
| Cosolver2SA.Solve | src/main/java/solver/Cosolver2SA.java:25-84 | the loop terminates; the result is a valid fresh solution holding the configuration of the last round; `history[i]` is the objective after i rounds; each round but the last is a strict gain and did not end interrupted; the last is no loss; an uninterrupted run ends on a round without gain |
| TtpSolution.Solution.FromSnapshot | src/main/java/solver/Cosolver2SA.java:242 | a deep copy: fresh arrays holding exactly the snapshot's values, valid |
| TtpSolution.Solution.Build | src/main/java/solver/Cosolver2SA.java:56 | a solution for a tour and feasible plan: `mapCI` is the index CityIndex built from the tour, and `ob` is the from-scratch objective |
| TtpSolution.Solution.Recompute | src/main/java/solver/Cosolver2SA.java:258 | the full re-evaluation makes the solution valid, and leaves an already valid solution unchanged |
| TtpSolution.Solution.FillWeights | src/main/java/solver/Cosolver2SA.java:258 | `weightAcc` becomes the from-scratch carried weights, all within capacity |
| TtpSolution.Solution.FillTimes | src/main/java/solver/Cosolver2SA.java:258 | `timeAcc` becomes the from-scratch cumulative times; the result is the last one |
| TtpSolution.Solution.ValidObjective | src/main/java/solver/Cosolver2SA.java:229-232 | a valid solution's `ob` and `ft` are the from-scratch objective and time |
| TtpSolution.Solution.CapacityInvariant | src/main/java/solver/Cosolver2SA.java:168 | the last `weightAcc` entry is the plan's weight, and `0 <= wend <= capacity` |
| TtpSolution.Solution.TimeAccMonotone | src/main/java/solver/Cosolver2SA.java:187-189 | `timeAcc` is non-negative, non-decreasing and bounded by `ft` |
| Ttp.SpeedLoss | src/main/java/solver/Cosolver2SA.java:105 | `C` is non-negative and `C * capacity = maxSpeed - minSpeed` |
| Ttp.Speed | src/main/java/solver/Cosolver2SA.java:189 | for a weight within capacity, `maxSpeed - wc * C` lies between minSpeed and maxSpeed (so the division is safe) |
| Ttp.LegTime | src/main/java/solver/Cosolver2SA.java:189 | every leg time is non-negative |
| Ttp.IndexPrefix | src/main/java/solver/Cosolver2SA.java:56 | writing tour positions over a zero-filled index keeps one entry per city |
| Ttp.IndexPrefixInverse | src/main/java/solver/Cosolver2SA.java:56 | over a tour of distinct cities every written position stays in place and every entry is a tour position |
| Ttp.CityIndex | src/main/java/solver/Cosolver2SA.java:56 | the index built from a tour is its inverse |
| Ttp.Toggle | src/main/java/solver/Cosolver2SA.java:206 | the toggled plan is a plan; entry k switches between 0 and nonzero; every other entry is unchanged |
| Ttp.ToggleInvolution | src/main/java/solver/Cosolver2SA.java:206 | flipping the same item twice restores the plan |
| Ttp.OversizedNeverPicked | src/main/java/solver/Cosolver2SA.java:168 | an item heavier than the knapsack is never in a feasible plan |
| Ttp.CarriedByMonotone | src/main/java/solver/Cosolver2SA.java:223 | carried weight is non-negative and never decreases along the tour |
| Ttp.CarriedByAll | src/main/java/solver/Cosolver2SA.java:233 | after the last position every picked item is on board |
| Ttp.WeightsInRange | src/main/java/solver/Cosolver2SA.java:188-189 | for a feasible plan every carried weight is within capacity, and the last is the plan's weight |
| Ttp.FlipCarriedBy | src/main/java/solver/Cosolver2SA.java:223 | flipping item k shifts the carried weight by `deltaW` exactly from k's position on |
| Ttp.FlipWeights | src/main/java/solver/Cosolver2SA.java:223 | the flipped plan's weight vector is the old one shifted by `deltaW` from `origBF` on |
| Ttp.FlipPlanWeight | src/main/java/solver/Cosolver2SA.java:171-177 | flipping item k changes the plan's weight by `deltaW` |
| Ttp.FlipPlanProfit | src/main/java/solver/Cosolver2SA.java:171-178 | flipping item k changes the raw profit by `deltaP` |
| Ttp.FlipFeasible | src/main/java/solver/Cosolver2SA.java:168 | a flip that passes the capacity guard keeps a feasible plan feasible |
| Ttp.TimeUpToStep | src/main/java/solver/Cosolver2SA.java:187-189 | the time of the first r + 1 legs is that of the first r plus leg r under its carried weight |
| Ttp.TimePrefix | src/main/java/solver/Cosolver2SA.java:184 | travel time up to a position depends only on the weights before it, so the prefix time can be reused |
| Ttp.TimeMonotone | src/main/java/solver/Cosolver2SA.java:187-189 | cumulative travel time is non-negative and never decreases |

## Left out

- Initial construction: `Constructive.generate("lz")` and `insertAndEliminate` are external. Their result is the input `s0` of `Solve`, required valid.
- Ls2opt: the 2-opt search is external. The stand-in evaluates a tour supplied by the caller, with the index built from it, and keeps it only if it is strictly better under the same plan.
- Random numbers: `RandGen.randInt` and `Math.random()` become oracle functions of the trial index. No generator is modelled.
- Trial: the Boltzmann test `exp(gap / T) > mu` is an oracle. Its probability is not modelled; only the fact that a zero gap passes it (`exp(0) = 1 > mu` for `mu` in [0, 1)) is required of the oracle.
- Floating point: times, speeds and objectives are exact reals. The drift that the final `ttp.objective(sBest)` call cancels does not arise, so `Recompute` provably changes nothing there.
- Trials: `Math.round(nbItems * trialFactor)` is exact half-up rounding of a real product, computed band by band in integers. Rounding of the double constants 0.04 and 0.03 is not modelled.
- Integer width: `int`/`long` overflow of weights and profits is not modelled. All integers are unbounded.
- Thread interruption is an input flag per temperature step or round. The interrupt flag is sticky in the source, so `SolveOracle` requires that an annealer step seeing it in round i implies the round-i check sees it too. Which thread raises it, and when, is not modelled, nor is any other concurrency.
- Debug output (`Deb.echo`, `this.debug`) is I/O only.
- SimulatedAnnealing: during the schedule the best snapshot `sBest` is a value (`Snapshot`) rather than a `TTPSolution` object. It becomes a fresh `Solution` at the end, and the recomputation of line 258 is applied to that object. The snapshots taken at lines 96 and 242 are not mutated before that recomputation, so only object identity differs.
- Solve: the source checks interruption after the round's two sub-optimizers and the `GBest` update, not before the round starts. The model follows the code.
- Instance data: distances, weights, profits and availability are read from an immutable `Instance` value. The instance class is not part of this model.
