/**
 * The co-evolutionary TTP solver `Cosolver2SA`: a knapsack simulated
 * annealer over a fixed tour, with incremental suffix recomputation of the
 * accumulation vectors after each accepted bit-flip, and the outer loop that
 * alternates tour optimisation and annealing until a round brings no strict
 * gain.
 *
 * Randomness and cancellation are inputs: an `Env` supplies the item drawn at
 * each trial, the outcome of the Boltzmann test and the interruption flag
 * observed at the top of each temperature step.
 */
module Cosolver2SA {
  import opened Ttp
  import opened TtpSolution

  /** The outside world of one annealing run. `draw(t)` is the item index
      drawn at trial t; `boltzmann(t, gap, T)` is the outcome of the test
      `exp(gap / T) > mu` with the uniform number mu drawn at trial t;
      `interrupted(s)` is the thread's interruption flag at the top of
      temperature step s. */
  datatype Env = Env(draw: nat -> nat, boltzmann: (nat, real, real) -> bool, interrupted: nat -> bool)

  /** What the oracles guarantee: every draw is an item index, and a zero
      gap always passes the Boltzmann test, since `exp(0 / T) = 1` exceeds
      every `mu` that `Math.random()` returns (mu lies in [0, 1)). */
  ghost predicate Oracle(inst: Instance, env: Env)
  {
    && (inst.nbItems > 0 ==> forall d :: env.draw(d) < inst.nbItems)
    && forall t, T :: env.boltzmann(t, 0.0, T)
  }

  /** The values a solution stands for: its tour, city index and picking
      plan; the accumulation vectors and scalars follow from these. */
  datatype Configuration = Configuration(tour: seq<int>, mapCI: seq<int>, plan: seq<int>)

  ghost predicate Fits(inst: Instance, c: Configuration)
  {
    Shaped(inst, c.tour, c.plan, c.mapCI)
  }

  /** The net objective of a configuration, from scratch. */
  function Objective(inst: Instance, c: Configuration): real
    requires Fits(inst, c)
  {
    FullObjective(inst, c.tour, c.plan, c.mapCI)
  }

  /** The configuration of a solution object. */
  function Values(sol: Solution): Configuration
    reads sol.tour, sol.mapCI, sol.pickingPlan
  {
    Configuration(sol.tour[..], sol.mapCI[..], sol.pickingPlan[..])
  }

  /** Annealing schedule: start and floor temperature, geometric decay. */
  const StartTemperature: real := 100.0
  const FloorTemperature: real := 1.0
  const Alpha: real := 0.95

  // ---------------------------------------------------------------------------
  // Trial budget
  // ---------------------------------------------------------------------------

  /** Trials per item and temperature step: fewer items, more trials each. */
  function TrialFactor(nbItems: nat): (f: real)
    ensures 0.0 < f <= 1000.0
  {
    if nbItems < 500 then 1000.0
    else if nbItems < 1000 then 100.0
    else if nbItems < 5000 then 50.0
    else if nbItems < 20000 then 10.0
    else if nbItems < 100000 then 1.0
    else if nbItems < 200000 then 0.04
    else 0.03
  }

  /** `Math.round(nbItems * trialFactor)`, band by band in integer
      arithmetic (TrialsRounded: the real product rounded half up). Every
      temperature step tries at least one flip exactly when there are items. */
  function Trials(nbItems: nat): (trials: nat)
    ensures (trials > 0) == (nbItems > 0)
  {
    if nbItems < 500 then 1000 * nbItems
    else if nbItems < 1000 then 100 * nbItems
    else if nbItems < 5000 then 50 * nbItems
    else if nbItems < 20000 then 10 * nbItems
    else if nbItems < 100000 then nbItems
    else if nbItems < 200000 then (nbItems * 4 + 50) / 100
    else (nbItems * 3 + 50) / 100
  }

  /** The trial budget is the product of the item count and the trial
      factor, rounded half up. */
  lemma TrialsRounded(nbItems: nat)
    ensures Trials(nbItems) == (nbItems as real * TrialFactor(nbItems) + 0.5).Floor
  {
  }

  /** The trial factor never grows with the number of items. */
  lemma TrialFactorAntitone(n: nat, n': nat)
    requires n <= n'
    ensures TrialFactor(n') <= TrialFactor(n)
  {
  }

  // ---------------------------------------------------------------------------
  // One bit-flip: evaluation on the suffix, commit on the suffix
  // ---------------------------------------------------------------------------

  /** The capacity guard of a trial: adding an item heavier than the
      remaining capacity is infeasible. */
  predicate Admissible(inst: Instance, plan: seq<int>, wend: int, k: int)
    requires inst.Valid() && |plan| == inst.nbItems && 0 <= k < inst.nbItems
  {
    !(plan[k] == 0 && inst.weight[k] > wend)
  }

  /** What the suffix recomputation relies on: for an admissible flip of item
      k, the flipped plan is feasible, its weight vector is the old one shifted
      by DeltaW from the flip position on, and its travel times up to the flip
      position are the old `timeAcc` entries. */
  lemma FlipSuffix(inst: Instance, tour: seq<int>, plan: seq<int>, mapCI: seq<int>,
                   wacc: seq<int>, tacc: seq<real>, k: int)
    requires inst.Valid() && TourShape(inst, tour) && IndexShape(inst, mapCI)
    requires IsPlan(inst, plan) && Feasible(inst, plan)
    requires Accumulated(inst, tour, plan, mapCI, wacc, tacc)
    requires 0 <= k < inst.nbItems && Admissible(inst, plan, inst.capacity - wacc[inst.nbCities - 1], k)
    ensures Feasible(inst, Toggle(inst, plan, k))
    ensures var ws := Weights(inst, Toggle(inst, plan, k), mapCI);
      && InRange(inst, ws)
      && (forall r :: 0 <= r < inst.nbCities ==>
            ws[r] == wacc[r] + (if ItemPos(inst, mapCI, k) <= r then DeltaW(inst, plan, k) else 0))
      && (forall r :: 0 <= r < ItemPos(inst, mapCI, k) ==> tacc[r] == TimeUpTo(inst, tour, ws, r + 1))
  {
    var p' := Toggle(inst, plan, k);
    WeightsInRange(inst, plan, mapCI);
    FlipFeasible(inst, plan, k);
    WeightsInRange(inst, p', mapCI);
    FlipWeights(inst, plan, mapCI, k);
    var ws := Weights(inst, p', mapCI);
    forall r | 0 <= r < ItemPos(inst, mapCI, k)
      ensures tacc[r] == TimeUpTo(inst, tour, ws, r + 1)
    {
      TimePrefix(inst, tour, wacc, ws, r + 1);
    }
  }

  /** Incremental = full recomputation: vectors that keep the old entries
      before the flip position and hold the flipped plan's weights and times
      from it on are exactly the accumulation vectors of the flipped plan. */
  lemma CommitSuffix(inst: Instance, tour: seq<int>, plan: seq<int>, mapCI: seq<int>,
                     wacc: seq<int>, tacc: seq<real>, k: int, wacc': seq<int>, tacc': seq<real>)
    requires inst.Valid() && TourShape(inst, tour) && IndexShape(inst, mapCI)
    requires IsPlan(inst, plan) && Feasible(inst, plan)
    requires Accumulated(inst, tour, plan, mapCI, wacc, tacc)
    requires 0 <= k < inst.nbItems && Admissible(inst, plan, inst.capacity - wacc[inst.nbCities - 1], k)
    requires |wacc'| == inst.nbCities && |tacc'| == inst.nbCities
    requires forall r :: 0 <= r < ItemPos(inst, mapCI, k) ==> wacc'[r] == wacc[r] && tacc'[r] == tacc[r]
    requires Feasible(inst, Toggle(inst, plan, k))
    requires var ws := Weights(inst, Toggle(inst, plan, k), mapCI);
      InRange(inst, ws) &&
      forall r :: ItemPos(inst, mapCI, k) <= r < inst.nbCities ==>
        wacc'[r] == ws[r] && tacc'[r] == TimeUpTo(inst, tour, ws, r + 1)
    ensures Accumulated(inst, tour, Toggle(inst, plan, k), mapCI, wacc', tacc')
  {
    FlipSuffix(inst, tour, plan, mapCI, wacc, tacc, k);
    var ws := Weights(inst, Toggle(inst, plan, k), mapCI);
    assert wacc' == ws;
  }

  /** The committed state after an admissible flip is a consistent
      solution: when the new vectors satisfy the conditions of CommitSuffix,
      the raw profit moves by DeltaP, the total time is the last entry of the
      new `timeAcc`, and `ob` and `wend` are derived from them as after every
      commit, all invariants of the solution hold for the flipped plan. */
  lemma CommitConsistent(inst: Instance, s: Snapshot, k: int, wacc': seq<int>, tacc': seq<real>)
    requires Consistent(inst, s) && 0 <= k < inst.nbItems
    requires Admissible(inst, s.pickingPlan, s.wend, k)
    requires |wacc'| == inst.nbCities && |tacc'| == inst.nbCities
    requires forall r :: 0 <= r < ItemPos(inst, s.mapCI, k) ==> wacc'[r] == s.weightAcc[r] && tacc'[r] == s.timeAcc[r]
    requires Feasible(inst, Toggle(inst, s.pickingPlan, k))
    requires var ws := Weights(inst, Toggle(inst, s.pickingPlan, k), s.mapCI);
      InRange(inst, ws) &&
      forall r :: ItemPos(inst, s.mapCI, k) <= r < inst.nbCities ==>
        wacc'[r] == ws[r] && tacc'[r] == TimeUpTo(inst, s.tour, ws, r + 1)
    ensures var fp' := s.fp + DeltaP(inst, s.pickingPlan, k);
      var ft' := tacc'[inst.nbCities - 1];
      Consistent(inst, Snapshot(s.tour, Toggle(inst, s.pickingPlan, k), s.mapCI, wacc', tacc',
                                NetProfit(inst, fp', ft'), fp', ft', inst.capacity - wacc'[inst.nbCities - 1]))
  {
    CommitSuffix(inst, s.tour, s.pickingPlan, s.mapCI, s.weightAcc, s.timeAcc, k, wacc', tacc');
    FlipPlanProfit(inst, s.pickingPlan, k, inst.nbItems);
  }

  /** The trial evaluation: the profit, travel time and objective `G` of the
      plan with item k flipped, recomputing travel time only from the flip
      position to the end of the tour and reusing the prefix time. The result
      equals a from-scratch traversal of the flipped plan. Nothing changes. */
  method EvaluateFlip(inst: Instance, sol: Solution, k: int) returns (fp: int, ft: real, G: real)
    requires sol.Valid(inst) && 0 <= k < inst.nbItems
    requires Admissible(inst, sol.pickingPlan[..], sol.wend, k)
    ensures Feasible(inst, Toggle(inst, sol.pickingPlan[..], k))
    ensures fp == ProfitSum(inst, Toggle(inst, sol.pickingPlan[..], k))
    ensures ft == FullTime(inst, sol.tour[..], Toggle(inst, sol.pickingPlan[..], k), sol.mapCI[..])
    ensures G == FullObjective(inst, sol.tour[..], Toggle(inst, sol.pickingPlan[..], k), sol.mapCI[..])
  {
    var n := inst.nbCities;
    ghost var p' := Toggle(inst, sol.pickingPlan[..], k);
    ghost var ws := Weights(inst, p', sol.mapCI[..]);
    FlipSuffix(inst, sol.tour[..], sol.pickingPlan[..], sol.mapCI[..], sol.weightAcc[..], sol.timeAcc[..], k);
    FlipPlanProfit(inst, sol.pickingPlan[..], k, inst.nbItems);

    var deltaP, deltaW;
    if sol.pickingPlan[k] == 0 {
      deltaP, deltaW := inst.profit[k], inst.weight[k];
    } else {
      deltaP, deltaW := -inst.profit[k], -inst.weight[k];
    }
    fp := sol.fp + deltaP;

    var origBF := sol.mapCI[inst.avail[k] - 1];
    var start := if origBF == 0 then 0.0 else sol.timeAcc[origBF - 1];
    ft := SuffixTime(inst, sol.tour, sol.weightAcc, origBF, deltaW, start, ws);
    G := NetProfit(inst, fp, ft);
  }

  /** The suffix loop of the trial evaluation: starting from the unchanged
      prefix time `start`, adds the time of every leg from position `origBF`
      to the end of the tour under the shifted weight `weightAcc[r] + deltaW`.
      When the shifted weights are those of `ws` and `start` is the time of
      `ws` up to `origBF`, the result is the total travel time under `ws`. */
  method SuffixTime(inst: Instance, tour: array<int>, weightAcc: array<int>, origBF: int, deltaW: int,
                    start: real, ghost ws: seq<int>) returns (ft: real)
    requires inst.Valid() && TourShape(inst, tour[..]) && weightAcc.Length == inst.nbCities
    requires 0 <= origBF < inst.nbCities
    requires |ws| == inst.nbCities && InRange(inst, ws)
    requires forall r :: origBF <= r < inst.nbCities ==> ws[r] == weightAcc[r] + deltaW
    requires start == TimeUpTo(inst, tour[..], ws, origBF)
    ensures ft == TimeUpTo(inst, tour[..], ws, inst.nbCities)
  {
    var n := inst.nbCities;
    ft := start;
    var r := origBF;
    while r < n
      invariant origBF <= r <= n
      invariant ft == TimeUpTo(inst, tour[..], ws, r)
    {
      var wc := weightAcc[r] + deltaW;
      ft := ft + LegTime(inst, tour[r], tour[(r + 1) % n], wc);
      r := r + 1;
    }
  }

  /** Leg r of the commit's suffix loop: stores the shifted weight
      `weightAcc[r] + deltaW`, which is ws[r], and the running time after the
      leg, which is the time of the first r + 1 legs under ws. */
  method RecoverLeg(inst: Instance, tour: array<int>, weightAcc: array<int>, timeAcc: array<real>,
                    r: int, deltaW: int, ft: real, ghost tr: seq<int>, ghost ws: seq<int>) returns (ft': real)
    requires inst.Valid() && TourShape(inst, tr) && tour[..] == tr
    requires weightAcc.Length == inst.nbCities && timeAcc.Length == inst.nbCities
    requires 0 <= r < inst.nbCities
    requires |ws| == inst.nbCities && InRange(inst, ws) && ws[r] == weightAcc[r] + deltaW
    requires ft == TimeUpTo(inst, tr, ws, r)
    modifies weightAcc, timeAcc
    ensures ft' == TimeUpTo(inst, tr, ws, r + 1)
    ensures weightAcc[..] == old(weightAcc[..])[r := ws[r]]
    ensures timeAcc[..] == old(timeAcc[..])[r := ft']
  {
    var wc := weightAcc[r] + deltaW;
    TimeUpToStep(inst, tr, ws, r);
    ft' := ft + LegTime(inst, tour[r], tour[(r + 1) % inst.nbCities], wc);
    weightAcc[r] := wc;
    timeAcc[r] := ft';
  }

  /** The suffix loop of the commit: the same traversal as SuffixTime, which
      also stores the shifted weight and the running time into `weightAcc[r]`
      and `timeAcc[r]` for every position from `origBF` on. Positions before
      `origBF` are not touched. */
  method RecoverSuffix(inst: Instance, tour: array<int>, weightAcc: array<int>, timeAcc: array<real>,
                       origBF: int, deltaW: int, start: real, ghost ws: seq<int>) returns (ft: real)
    requires inst.Valid() && TourShape(inst, tour[..]) && tour != weightAcc
    requires weightAcc.Length == inst.nbCities && timeAcc.Length == inst.nbCities
    requires 0 <= origBF < inst.nbCities
    requires |ws| == inst.nbCities && InRange(inst, ws)
    requires forall r :: origBF <= r < inst.nbCities ==> ws[r] == weightAcc[r] + deltaW
    requires start == TimeUpTo(inst, tour[..], ws, origBF)
    modifies weightAcc, timeAcc
    ensures ft == TimeUpTo(inst, tour[..], ws, inst.nbCities)
    ensures forall r :: 0 <= r < origBF ==> weightAcc[r] == old(weightAcc[r]) && timeAcc[r] == old(timeAcc[r])
    ensures forall r :: origBF <= r < inst.nbCities ==>
      weightAcc[r] == ws[r] && timeAcc[r] == TimeUpTo(inst, tour[..], ws, r + 1)
  {
    var n := inst.nbCities;
    ghost var tr := tour[..];
    ft := start;
    var r := origBF;
    while r < n
      invariant origBF <= r <= n
      invariant tour[..] == tr
      invariant ft == TimeUpTo(inst, tr, ws, r)
      invariant forall j :: 0 <= j < origBF ==> weightAcc[j] == old(weightAcc[j]) && timeAcc[j] == old(timeAcc[j])
      invariant forall j :: origBF <= j < r ==> weightAcc[j] == ws[j] && timeAcc[j] == TimeUpTo(inst, tr, ws, j + 1)
      invariant forall j :: r <= j < n ==> weightAcc[j] == old(weightAcc[j])
    {
      ft := RecoverLeg(inst, tour, weightAcc, timeAcc, r, deltaW, ft, tr, ws);
      r := r + 1;
    }
  }

  /** The commit of an accepted flip: toggles `pickingPlan[k]`, then
      recovers the accumulation vectors and the scalars. */
  method CommitFlip(inst: Instance, sol: Solution, k: int)
    requires sol.Valid(inst) && 0 <= k < inst.nbItems
    requires Admissible(inst, sol.pickingPlan[..], sol.wend, k)
    modifies sol, sol.pickingPlan, sol.weightAcc, sol.timeAcc
    ensures sol.Valid(inst)
    ensures sol.pickingPlan[..] == Toggle(inst, old(sol.pickingPlan[..]), k)
    ensures sol.ob == FullObjective(inst, sol.tour[..], sol.pickingPlan[..], sol.mapCI[..])
    ensures forall r :: 0 <= r < ItemPos(inst, sol.mapCI[..], k) ==>
      sol.weightAcc[r] == old(sol.weightAcc[r]) && sol.timeAcc[r] == old(sol.timeAcc[r])
    ensures forall r :: ItemPos(inst, sol.mapCI[..], k) <= r < inst.nbCities ==>
      sol.weightAcc[r] == old(sol.weightAcc[r]) + DeltaW(inst, old(sol.pickingPlan[..]), k)
  {
    ghost var s := sol.Copy();
    FlipSuffix(inst, s.tour, s.pickingPlan, s.mapCI, s.weightAcc, s.timeAcc, k);
    // toggle entry k of the plan
    sol.pickingPlan[k] := if sol.pickingPlan[k] != 0 then 0 else inst.avail[k];
    assert sol.pickingPlan[..] == Toggle(inst, s.pickingPlan, k);
    RecoverAccumulation(inst, sol, k, s);
    sol.ValidObjective(inst);
  }

  /** The recovery of the accumulation vectors after the bit-flip of item k,
      when everything but `pickingPlan` still holds the pre-flip state `s`:
      the deltas are re-derived from the flipped entry (they equal the
      pre-flip ones, the flip having turned a zero into a nonzero or back),
      `weightAcc` and `timeAcc` are rebuilt from the flip position to the end
      of the tour, the prefix is left alone, and `ob`, `fp`, `ft` and `wend`
      are updated. The result is a valid solution for the flipped plan. */
  method RecoverAccumulation(inst: Instance, sol: Solution, k: int, ghost s: Snapshot)
    requires Consistent(inst, s) && 0 <= k < inst.nbItems && Admissible(inst, s.pickingPlan, s.wend, k)
    requires sol.tour.Length == inst.nbCities && sol.mapCI.Length == inst.nbCities
    requires sol.weightAcc.Length == inst.nbCities && sol.timeAcc.Length == inst.nbCities
    requires sol.tour != sol.mapCI && sol.tour != sol.pickingPlan && sol.tour != sol.weightAcc
    requires sol.mapCI != sol.pickingPlan && sol.mapCI != sol.weightAcc && sol.pickingPlan != sol.weightAcc
    requires sol.tour[..] == s.tour && sol.mapCI[..] == s.mapCI
    requires sol.weightAcc[..] == s.weightAcc && sol.timeAcc[..] == s.timeAcc && sol.fp == s.fp
    requires sol.pickingPlan[..] == Toggle(inst, s.pickingPlan, k)
    modifies sol, sol.weightAcc, sol.timeAcc
    ensures sol.Valid(inst)
  {
    var n := inst.nbCities;
    ghost var p' := Toggle(inst, s.pickingPlan, k);
    ghost var ws := Weights(inst, p', s.mapCI);
    FlipSuffix(inst, s.tour, s.pickingPlan, s.mapCI, s.weightAcc, s.timeAcc, k);
    var deltaP, deltaW;
    if sol.pickingPlan[k] != 0 {
      deltaP, deltaW := inst.profit[k], inst.weight[k];
    } else {
      deltaP, deltaW := -inst.profit[k], -inst.weight[k];
    }
    var fp := sol.fp + deltaP;
    var origBF := sol.mapCI[inst.avail[k] - 1];
    var start := if origBF == 0 then 0.0 else sol.timeAcc[origBF - 1];
    var ft := RecoverSuffix(inst, sol.tour, sol.weightAcc, sol.timeAcc, origBF, deltaW, start, ws);
    ghost var wacc', tacc' := sol.weightAcc[..], sol.timeAcc[..];
    CommitConsistent(inst, s, k, wacc', tacc');
    sol.ob, sol.fp, sol.ft, sol.wend := NetProfit(inst, fp, ft), fp, ft, inst.capacity - sol.weightAcc[n - 1];
    assert sol.Copy() == Snapshot(s.tour, p', s.mapCI, wacc', tacc', sol.ob, fp, ft, sol.wend);
  }

  // ---------------------------------------------------------------------------
  // One trial and the annealing schedule
  // ---------------------------------------------------------------------------

  /** The outcome of one trial on the values of a solution: the picking plan
      after trial t on item k at temperature T, when the chain energy is the
      objective of the current plan. A flip that fails the capacity guard is
      skipped; otherwise it is kept when the gap to the current objective is
      positive or the Boltzmann test passes. */
  function TrialOutcome(inst: Instance, tour: seq<int>, mapCI: seq<int>, plan: seq<int>,
                        k: int, env: Env, t: nat, T: real): (p: seq<int>)
    requires Shaped(inst, tour, plan, mapCI) && 0 <= k < inst.nbItems
    ensures Shaped(inst, tour, p, mapCI)
    ensures p == plan || p == Toggle(inst, plan, k)
    ensures !Admissible(inst, plan, inst.capacity - PlanWeight(inst, plan, inst.nbItems), k) ==> p == plan
    ensures Admissible(inst, plan, inst.capacity - PlanWeight(inst, plan, inst.nbItems), k) &&
            Feasible(inst, Toggle(inst, plan, k)) && env.boltzmann(t, 0.0, T) &&
            FullObjective(inst, tour, Toggle(inst, plan, k), mapCI) >= FullObjective(inst, tour, plan, mapCI)
            ==> p == Toggle(inst, plan, k)
  {
    if !Admissible(inst, plan, inst.capacity - PlanWeight(inst, plan, inst.nbItems), k) then plan
    else
      FlipFeasible(inst, plan, k);
      var gap := FullObjective(inst, tour, Toggle(inst, plan, k), mapCI) - FullObjective(inst, tour, plan, mapCI);
      if gap > 0.0 || env.boltzmann(t, gap, T) then Toggle(inst, plan, k) else plan
  }

  /** The picking plan after `trials` trials from trial index t at
      temperature T: trial t + u draws its item from the oracle and applies
      TrialOutcome to the plan left by the trials before it. */
  function StepPlan(inst: Instance, tour: seq<int>, mapCI: seq<int>, plan: seq<int>,
                    env: Env, T: real, t: nat, trials: nat): (p: seq<int>)
    requires Shaped(inst, tour, plan, mapCI) && Oracle(inst, env)
    requires trials > 0 ==> inst.nbItems > 0
    ensures Shaped(inst, tour, p, mapCI)
    ensures trials == 0 ==> p == plan
    decreases trials
  {
    if trials == 0 then plan
    else
      var before := StepPlan(inst, tour, mapCI, plan, env, T, t, trials - 1);
      TrialOutcome(inst, tour, mapCI, before, env.draw(t + trials - 1), env, t + trials - 1, T)
  }

  /** One trial on item k with chain energy `chain`: skipped when the capacity
      guard fails; otherwise the flipped plan's objective G is computed on the
      suffix and the flip is accepted when `G - chain > 0` or the Boltzmann
      test `boltzmann(t, G - chain, T)` succeeds; a zero gap is always
      accepted. An accepted flip is committed and G becomes the new chain
      energy; a rejected or skipped trial changes nothing. When the chain
      energy is the objective of the solution, the new plan is TrialOutcome. */
  method Trial(inst: Instance, sol: Solution, k: int, chain: real, env: Env, t: nat, T: real)
    returns (chain': real, accepted: bool)
    requires sol.Valid(inst) && 0 <= k < inst.nbItems && env.boltzmann(t, 0.0, T)
    modifies sol, sol.pickingPlan, sol.weightAcc, sol.timeAcc
    ensures sol.Valid(inst)
    ensures !Admissible(inst, old(sol.pickingPlan[..]), old(sol.wend), k) ==> !accepted
    ensures Admissible(inst, old(sol.pickingPlan[..]), old(sol.wend), k) ==>
      Feasible(inst, Toggle(inst, old(sol.pickingPlan[..]), k))
    ensures Admissible(inst, old(sol.pickingPlan[..]), old(sol.wend), k) ==>
      var G := FullObjective(inst, old(sol.tour[..]), Toggle(inst, old(sol.pickingPlan[..]), k), old(sol.mapCI[..]));
      && accepted == (G - chain > 0.0 || env.boltzmann(t, G - chain, T))
      && (G - chain >= 0.0 ==> accepted)
    ensures accepted ==>
      && sol.pickingPlan[..] == Toggle(inst, old(sol.pickingPlan[..]), k)
      && chain' == sol.ob == FullObjective(inst, old(sol.tour[..]), sol.pickingPlan[..], old(sol.mapCI[..]))
    ensures !accepted ==>
      && chain' == chain
      && sol.pickingPlan[..] == old(sol.pickingPlan[..])
      && sol.weightAcc[..] == old(sol.weightAcc[..]) && sol.timeAcc[..] == old(sol.timeAcc[..])
      && sol.ob == old(sol.ob) && sol.fp == old(sol.fp) && sol.ft == old(sol.ft) && sol.wend == old(sol.wend)
    ensures chain == old(sol.ob) ==>
      sol.pickingPlan[..] == TrialOutcome(inst, old(sol.tour[..]), old(sol.mapCI[..]), old(sol.pickingPlan[..]), k, env, t, T)
  {
    sol.CapacityInvariant(inst);
    sol.ValidObjective(inst);
    chain', accepted := chain, false;
    // the capacity guard: a pick that would overflow the knapsack is skipped
    if sol.pickingPlan[k] == 0 && inst.weight[k] > sol.wend {
      return;
    }
    var fp, ft, G := EvaluateFlip(inst, sol, k);
    var gap := G - chain;
    accepted := gap > 0.0 || env.boltzmann(t, gap, T);
    if accepted {
      chain' := G;
      CommitFlip(inst, sol, k);
    }
  }

  /** Trial t0 + u of a temperature step that started at trial t0 from the
      plan `plan`: draws its item and runs the trial against the live
      objective, so that the plan left by the first u trials becomes the plan
      left by the first u + 1. */
  method StepTrial(inst: Instance, sol: Solution, env: Env, T: real, t0: nat, u: nat, chain: real,
                   ghost tour: seq<int>, ghost mapCI: seq<int>, ghost plan: seq<int>)
    returns (chain': real)
    requires sol.Valid(inst) && Oracle(inst, env) && inst.nbItems > 0 && chain == sol.ob
    requires Shaped(inst, tour, plan, mapCI) && sol.tour[..] == tour && sol.mapCI[..] == mapCI
    requires sol.pickingPlan[..] == StepPlan(inst, tour, mapCI, plan, env, T, t0, u)
    modifies sol, sol.pickingPlan, sol.weightAcc, sol.timeAcc
    ensures sol.Valid(inst) && chain' == sol.ob
    ensures sol.tour[..] == tour && sol.mapCI[..] == mapCI
    ensures sol.pickingPlan[..] == StepPlan(inst, tour, mapCI, plan, env, T, t0, u + 1)
  {
    // the item of trial t0 + u, from the oracle
    var k := env.draw(t0 + u);
    var accepted;
    chain', accepted := Trial(inst, sol, k, chain, env, t0 + u, T);
  }

  /** The trials of one temperature step at temperature T: `trials` draws of
      an item, each tried against the chain energy `chain`. Every accepted
      flip sets the chain energy to the objective it commits, so the chain
      energy keeps following the live objective `sol.ob`. The new picking
      plan is StepPlan of the old one; the result is the index of the next
      draw and the chain energy. */
  method TemperatureStep(inst: Instance, sol: Solution, env: Env, trials: nat, t: nat, T: real, chain: real)
    returns (t': nat, chain': real)
    requires sol.Valid(inst) && (trials > 0 ==> inst.nbItems > 0) && chain == sol.ob
    requires Oracle(inst, env)
    modifies sol, sol.pickingPlan, sol.weightAcc, sol.timeAcc
    ensures sol.Valid(inst) && chain' == sol.ob
    ensures sol.tour[..] == old(sol.tour[..]) && sol.mapCI[..] == old(sol.mapCI[..])
    ensures sol.pickingPlan[..] == StepPlan(inst, old(sol.tour[..]), old(sol.mapCI[..]), old(sol.pickingPlan[..]), env, T, t, trials)
    ensures t' == t + trials
  {
    chain' := chain;
    t' := t;
    ghost var tour, mapCI, plan := sol.tour[..], sol.mapCI[..], sol.pickingPlan[..];
    for u := 0 to trials
      invariant sol.Valid(inst) && chain' == sol.ob
      invariant sol.tour[..] == tour && sol.mapCI[..] == mapCI
      invariant t' == t + u && Shaped(inst, tour, plan, mapCI)
      invariant sol.pickingPlan[..] == StepPlan(inst, tour, mapCI, plan, env, T, t, u)
    {
      chain' := StepTrial(inst, sol, env, T, t, u, chain', tour, mapCI, plan);
      t' := t' + 1;
    }
  }

  /** Above the floor, one geometric cooling step lowers the temperature by
      at least 0.05, so at most 1980 steps fit between the start and the
      floor: the schedule terminates. */
  lemma Cooling(T: real)
    requires T > FloorTemperature
    ensures 0.0 < T * Alpha <= T - 0.05
  {
  }

  /** The end of a temperature step: the best snapshot is replaced by a copy
      of the live solution when that one is strictly better. The result is
      the better of the two, and on a tie the old snapshot is kept. */
  method KeepBest(inst: Instance, sol: Solution, best: Snapshot) returns (b: Snapshot)
    requires sol.Valid(inst) && Consistent(inst, best)
    ensures Consistent(inst, b)
    ensures b == best || b == sol.Copy()
    ensures best.ob <= b.ob && sol.ob <= b.ob
    ensures b != best ==> best.ob < sol.ob
  {
    b := best;
    // a strictly better live solution becomes the best snapshot
    if sol.ob > best.ob {
      b := sol.Copy();
    }
  }

  /** The temperature at the start of temperature step i: the start
      temperature cooled i times by Alpha. */
  function Temperature(i: nat): (T: real)
    ensures 0.0 < T <= StartTemperature
  {
    if i == 0 then StartTemperature else Temperature(i - 1) * Alpha
  }

  /** The number of temperature steps the schedule completes, counted from
      step i on, when the temperature is still above the floor at step i: the
      first step at which the thread is found interrupted, or the first step
      whose temperature is at or below the floor. Every step before it runs. */
  function StepsRun(env: Env, i: nat): (m: nat)
    requires Temperature(i) > FloorTemperature
    ensures i <= m
    ensures forall j :: i <= j < m ==> !env.interrupted(j) && Temperature(j) > FloorTemperature
    ensures env.interrupted(m) || Temperature(m) <= FloorTemperature
    decreases (Temperature(i) * 20.0).Floor
  {
    if env.interrupted(i) then i
    else
      Cooling(Temperature(i));
      if Temperature(i + 1) <= FloorTemperature then i + 1 else StepsRun(env, i + 1)
  }

  /** The index of the first draw of temperature step i when every step
      runs `trials` trials: i * trials. */
  function FirstDraw(i: nat, trials: nat): (t: nat)
    ensures t == i * trials
  {
    if i == 0 then 0 else FirstDraw(i - 1, trials) + trials
  }

  /** The picking plan after the first i temperature steps of the schedule:
      step j runs `Trials(nbItems)` trials at Temperature(j), its draws
      numbered from FirstDraw(j, Trials(nbItems)) on. */
  function ScheduledPlan(inst: Instance, tour: seq<int>, mapCI: seq<int>, plan: seq<int>, env: Env, i: nat): (p: seq<int>)
    requires Shaped(inst, tour, plan, mapCI) && Oracle(inst, env)
    ensures Shaped(inst, tour, p, mapCI)
  {
    if i == 0 then plan
    else
      var trials := Trials(inst.nbItems);
      StepPlan(inst, tour, mapCI, ScheduledPlan(inst, tour, mapCI, plan, env, i - 1), env, Temperature(i - 1), FirstDraw(i - 1, trials), trials)
  }

  /** The objective of the live solution at the end of each of the first m
      temperature steps. */
  function StepEnds(inst: Instance, tour: seq<int>, mapCI: seq<int>, plan: seq<int>, env: Env, m: nat): (e: seq<real>)
    requires Shaped(inst, tour, plan, mapCI) && Oracle(inst, env)
    ensures |e| == m
    ensures forall i :: 0 <= i < m ==> e[i] == FullObjective(inst, tour, ScheduledPlan(inst, tour, mapCI, plan, env, i + 1), mapCI)
  {
    if m == 0 then []
    else StepEnds(inst, tour, mapCI, plan, env, m - 1) + [FullObjective(inst, tour, ScheduledPlan(inst, tour, mapCI, plan, env, m), mapCI)]
  }

  /** A step found interrupted ends the schedule: no step is run from it. */
  lemma StepsRunStop(env: Env, n: nat)
    requires Temperature(n) > FloorTemperature && env.interrupted(n)
    ensures StepsRun(env, n) == n
  {
  }

  /** One more completed step: the temperature cools by Alpha, and the count
      of steps run is n + 1 when the new temperature is at the floor, and is
      unchanged from step n + 1 on otherwise. */
  lemma StepsRunNext(env: Env, n: nat)
    requires Temperature(n) > FloorTemperature && !env.interrupted(n)
    ensures Temperature(n + 1) == Temperature(n) * Alpha
    ensures Temperature(n + 1) <= FloorTemperature ==> StepsRun(env, n) == n + 1
    ensures Temperature(n + 1) > FloorTemperature ==> StepsRun(env, n + 1) == StepsRun(env, n)
  {
  }

  /** Step n of the schedule, run on the plan and step ends of the first n
      steps, extends both by one step. */
  lemma ScheduleAdvance(inst: Instance, tour: seq<int>, mapCI: seq<int>, plan: seq<int>, env: Env, n: nat,
                        trials: nat, t: nat, p: seq<int>, p': seq<int>, e: seq<real>)
    requires Shaped(inst, tour, plan, mapCI) && Oracle(inst, env)
    requires trials == Trials(inst.nbItems) && t == FirstDraw(n, trials)
    requires p == ScheduledPlan(inst, tour, mapCI, plan, env, n) && e == StepEnds(inst, tour, mapCI, plan, env, n)
    requires p' == StepPlan(inst, tour, mapCI, p, env, Temperature(n), t, trials)
    ensures t + trials == FirstDraw(n + 1, trials)
    ensures p' == ScheduledPlan(inst, tour, mapCI, plan, env, n + 1)
    ensures e + [FullObjective(inst, tour, p', mapCI)] == StepEnds(inst, tour, mapCI, plan, env, n + 1)
  {
  }

  /** Entry j of the objectives `start` followed by s. */
  function Entry(start: real, s: seq<real>, j: nat): real
    requires j <= |s|
  {
    if j == 0 then start else s[j - 1]
  }

  /** Which of `start` (0) and the step ends s (1 to |s|) the best snapshot
      holds: the first maximum, since a snapshot is replaced only by a
      strictly better one. */
  function BestStep(start: real, s: seq<real>): (j: nat)
    ensures j <= |s|
    ensures start <= Entry(start, s, j)
    ensures forall i :: 0 <= i < |s| ==> s[i] <= Entry(start, s, j)
    ensures 0 < j ==> start < s[j - 1] && forall i :: 0 <= i < j - 1 ==> s[i] < s[j - 1]
  {
    if s == [] then 0
    else
      var j := BestStep(start, s[..|s| - 1]);
      if s[|s| - 1] > Entry(start, s[..|s| - 1], j) then |s| else j
  }

  /** The objective of the best snapshot: the maximum of `start` and s. */
  function BestOf(start: real, s: seq<real>): (v: real)
    ensures start <= v && forall i :: 0 <= i < |s| ==> s[i] <= v
    ensures v == start || exists i :: 0 <= i < |s| && s[i] == v
  {
    Entry(start, s, BestStep(start, s))
  }

  /** One more step end x: the best snapshot moves to it exactly when it is
      strictly better. */
  lemma BestAppend(start: real, s: seq<real>, x: real)
    ensures BestStep(start, s + [x]) == if x > BestOf(start, s) then |s| + 1 else BestStep(start, s)
    ensures BestOf(start, s + [x]) == if x > BestOf(start, s) then x else BestOf(start, s)
  {
    assert (s + [x])[..|s|] == s;
  }

  /** The best objective never decreases from one temperature step to the
      next. */
  lemma BestRising(start: real, s: seq<real>, i: nat, j: nat)
    requires i <= j <= |s|
    ensures BestOf(start, s[..i]) <= BestOf(start, s[..j])
  {
    var v := BestOf(start, s[..i]);
    if v != start {
      var k :| 0 <= k < i && s[..i][k] == v;
      assert s[..j][k] == v;
    }
  }

  /** Temperature step n of the schedule, from the state the first n steps
      left: the trials at Temperature(n). The live plan becomes that of the
      first n + 1 steps, and its objective is the step end that extends
      `ends`. */
  method AnnealStep(inst: Instance, sol: Solution, env: Env, trials: nat, t: nat, T: real, chain: real,
                    ghost tour0: seq<int>, ghost mapCI0: seq<int>, ghost plan0: seq<int>,
                    ghost n: nat, ghost ends: seq<real>)
    returns (t': nat, chain': real)
    requires sol.Valid(inst) && chain == sol.ob && Oracle(inst, env)
    requires Shaped(inst, tour0, plan0, mapCI0)
    requires sol.tour[..] == tour0 && sol.mapCI[..] == mapCI0
    requires trials == Trials(inst.nbItems) && t == FirstDraw(n, trials) && T == Temperature(n)
    requires sol.pickingPlan[..] == ScheduledPlan(inst, tour0, mapCI0, plan0, env, n)
    requires ends == StepEnds(inst, tour0, mapCI0, plan0, env, n)
    modifies sol, sol.pickingPlan, sol.weightAcc, sol.timeAcc
    ensures sol.Valid(inst) && chain' == sol.ob
    ensures sol.tour[..] == tour0 && sol.mapCI[..] == mapCI0
    ensures t' == FirstDraw(n + 1, trials)
    ensures sol.pickingPlan[..] == ScheduledPlan(inst, tour0, mapCI0, plan0, env, n + 1)
    ensures ends + [sol.ob] == StepEnds(inst, tour0, mapCI0, plan0, env, n + 1)
  {
    ghost var plan := sol.pickingPlan[..];
    t', chain' := TemperatureStep(inst, sol, env, trials, t, T, chain);
    sol.ValidObjective(inst);
    ScheduleAdvance(inst, tour0, mapCI0, plan0, env, n, trials, t, plan, sol.pickingPlan[..], ends);
  }

  /** Temperature step n of the schedule, from the state the first n steps
      left: the trials at Temperature(n), KeepBest, and the cooling. The live
      plan and the step ends become those of the first n' = n + 1 steps, the
      best snapshot keeps holding the plan and objective of the first best
      among `ob0` and the step ends, and the temperature becomes
      Temperature(n'). The schedule stops after step n exactly when that
      temperature is at or below the floor. */
  method ScheduleStep(inst: Instance, sol: Solution, env: Env, best: Snapshot,
                      trials: nat, t: nat, T: real, chain: real,
                      ghost tour0: seq<int>, ghost mapCI0: seq<int>, ghost plan0: seq<int>,
                      ghost ob0: real, n: nat, ghost ends: seq<real>)
    returns (best': Snapshot, t': nat, T': real, chain': real, n': nat, ghost ends': seq<real>)
    requires sol.Valid(inst) && Consistent(inst, best) && chain == sol.ob && Oracle(inst, env)
    requires Shaped(inst, tour0, plan0, mapCI0)
    requires sol.tour[..] == tour0 && sol.mapCI[..] == mapCI0
    requires best.tour == tour0 && best.mapCI == mapCI0
    requires trials == Trials(inst.nbItems) && t == FirstDraw(n, trials)
    requires T == Temperature(n) && T > FloorTemperature && !env.interrupted(n)
    requires sol.pickingPlan[..] == ScheduledPlan(inst, tour0, mapCI0, plan0, env, n)
    requires ends == StepEnds(inst, tour0, mapCI0, plan0, env, n)
    requires best.pickingPlan == ScheduledPlan(inst, tour0, mapCI0, plan0, env, BestStep(ob0, ends))
    requires best.ob == BestOf(ob0, ends)
    modifies sol, sol.pickingPlan, sol.weightAcc, sol.timeAcc
    ensures n' == n + 1
    ensures sol.Valid(inst) && Consistent(inst, best') && chain' == sol.ob
    ensures sol.tour[..] == tour0 && sol.mapCI[..] == mapCI0
    ensures best'.tour == tour0 && best'.mapCI == mapCI0
    ensures t' == FirstDraw(n', trials)
    ensures T' == Temperature(n')
    ensures T' > FloorTemperature ==> StepsRun(env, n') == StepsRun(env, n)
    ensures T' <= FloorTemperature ==> StepsRun(env, n) == n'
    ensures sol.pickingPlan[..] == ScheduledPlan(inst, tour0, mapCI0, plan0, env, n')
    ensures ends' == StepEnds(inst, tour0, mapCI0, plan0, env, n')
    ensures best'.pickingPlan == ScheduledPlan(inst, tour0, mapCI0, plan0, env, BestStep(ob0, ends'))
    ensures best'.ob == BestOf(ob0, ends') && sol.ob <= best'.ob
  {
    t', chain' := AnnealStep(inst, sol, env, trials, t, T, chain, tour0, mapCI0, plan0, n, ends);
    // a strictly better live solution becomes the best snapshot
    best' := KeepBest(inst, sol, best);
    BestAppend(ob0, ends, sol.ob);
    ends' := ends + [sol.ob];
    // geometric cooling
    StepsRunNext(env, n);
    T' := T * Alpha;
    n' := n + 1;
  }

  /** The annealing schedule (the loops of the knapsack annealer): the live
      solution `sol` is updated in place by accepted flips, the chain energy
      (the acceptance baseline) follows `sol`, and the best snapshot `best`
      is replaced by a copy of `sol` when `sol` is strictly better at the end
      of a temperature step. `ends` records `sol.ob` at the end of every
      completed temperature step; the schedule runs StepsRun(env, 0) steps. */
  method Schedule(inst: Instance, sol: Solution, env: Env) returns (best: Snapshot, ghost ends: seq<real>)
    requires sol.Valid(inst)
    requires Oracle(inst, env)
    modifies sol, sol.pickingPlan, sol.weightAcc, sol.timeAcc
    ensures sol.Valid(inst) && Consistent(inst, best)
    ensures sol.tour[..] == old(sol.tour[..]) && sol.mapCI[..] == old(sol.mapCI[..])
    ensures best.tour == sol.tour[..] && best.mapCI == sol.mapCI[..]
    ensures |ends| == StepsRun(env, 0)
    ensures ends == StepEnds(inst, old(sol.tour[..]), old(sol.mapCI[..]), old(sol.pickingPlan[..]), env, |ends|)
    ensures sol.pickingPlan[..] == ScheduledPlan(inst, old(sol.tour[..]), old(sol.mapCI[..]), old(sol.pickingPlan[..]), env, |ends|)
    ensures best.pickingPlan == ScheduledPlan(inst, old(sol.tour[..]), old(sol.mapCI[..]), old(sol.pickingPlan[..]), env, BestStep(old(sol.ob), ends))
    ensures best.ob == BestOf(old(sol.ob), ends)
    ensures sol.ob <= best.ob
    ensures env.interrupted(0) ==> best == old(sol.Copy())
  {
    ghost var ob0, tour0, mapCI0, plan0 := sol.ob, sol.tour[..], sol.mapCI[..], sol.pickingPlan[..];
    best := sol.Copy();
    ghost var s0 := best;
    // the acceptance baseline of the annealing chain
    var chain := sol.ob;
    var trials := Trials(inst.nbItems);
    var T := StartTemperature;
    var nbIter: nat := 0;
    var t: nat := 0;
    ends := [];
    while true
      invariant sol.Valid(inst) && Consistent(inst, best) && chain == sol.ob
      invariant sol.tour[..] == tour0 && sol.mapCI[..] == mapCI0
      invariant best.tour == tour0 && best.mapCI == mapCI0
      invariant T == Temperature(nbIter) && T > FloorTemperature
      invariant StepsRun(env, nbIter) == StepsRun(env, 0)
      invariant t == FirstDraw(nbIter, trials)
      invariant sol.pickingPlan[..] == ScheduledPlan(inst, tour0, mapCI0, plan0, env, nbIter)
      invariant ends == StepEnds(inst, tour0, mapCI0, plan0, env, nbIter)
      invariant best.pickingPlan == ScheduledPlan(inst, tour0, mapCI0, plan0, env, BestStep(ob0, ends))
      invariant best.ob == BestOf(ob0, ends) && sol.ob <= best.ob
      invariant nbIter == 0 ==> best == s0
      invariant nbIter > 0 ==> !env.interrupted(0)
      decreases StepsRun(env, 0) - nbIter
    {
      // an interrupted thread ends the schedule before the step
      if env.interrupted(nbIter) {
        StepsRunStop(env, nbIter);
        break;
      }
      best, t, T, chain, nbIter, ends := ScheduleStep(inst, sol, env, best, trials, t, T, chain, tour0, mapCI0, plan0, ob0, nbIter, ends);
      // the schedule ends once the temperature is at or below the floor
      if T <= FloorTemperature {
        break;
      }
    }
  }

  /** b and all its arrays were allocated since the pre-state. */
  twostate predicate FreshCopy(new b: Solution)
  {
    fresh(b) && fresh(b.tour) && fresh(b.pickingPlan) && fresh(b.mapCI) && fresh(b.weightAcc) && fresh(b.timeAcc)
  }

  /** The end of the annealer: a fresh solution holding the best snapshot,
      evaluated again from scratch. A consistent snapshot is left as it is. */
  method Materialize(inst: Instance, best: Snapshot) returns (sBest: Solution)
    requires Consistent(inst, best)
    ensures sBest.Valid(inst) && FreshCopy(sBest) && sBest.Copy() == best
  {
    sBest := new Solution.FromSnapshot(inst, best);
    // the full evaluation of the returned solution
    sBest.Recompute(inst);
  }

  /** The knapsack simulated annealing over the fixed tour of `sol`: the
      schedule, then a fresh solution holding the best snapshot, evaluated
      from scratch. The result is on the same tour and holds the plan of the
      first best among the input and the step ends; `sol` is left holding the
      plan of the last step. Interrupted before the first temperature step,
      the result is a copy of the input. */
  method SimulatedAnnealing(inst: Instance, sol: Solution, env: Env) returns (sBest: Solution, ghost ends: seq<real>)
    requires sol.Valid(inst)
    requires Oracle(inst, env)
    modifies sol, sol.pickingPlan, sol.weightAcc, sol.timeAcc
    ensures sBest.Valid(inst) && FreshCopy(sBest) && sol.Valid(inst)
    ensures sBest.tour[..] == old(sol.tour[..]) && sBest.mapCI[..] == old(sol.mapCI[..])
    ensures |ends| == StepsRun(env, 0)
    ensures ends == StepEnds(inst, old(sol.tour[..]), old(sol.mapCI[..]), old(sol.pickingPlan[..]), env, |ends|)
    ensures sol.pickingPlan[..] == ScheduledPlan(inst, old(sol.tour[..]), old(sol.mapCI[..]), old(sol.pickingPlan[..]), env, |ends|)
    ensures sBest.pickingPlan[..] == ScheduledPlan(inst, old(sol.tour[..]), old(sol.mapCI[..]), old(sol.pickingPlan[..]), env, BestStep(old(sol.ob), ends))
    ensures sBest.ob == BestOf(old(sol.ob), ends)
    ensures old(sol.ob) <= sBest.ob && sol.ob <= sBest.ob
    ensures env.interrupted(0) ==> sBest.Copy() == old(sol.Copy())
    ensures Values(sBest) == AnnealOutcome(inst, old(Values(sol)), env)
  {
    var best;
    best, ends := Schedule(inst, sol, env);
    sBest := Materialize(inst, best);
  }

  /** The configuration the annealer returns: the plan of the first best
      among the input and the step ends, on the unchanged tour. Its
      objective is the best of the input objective and the step ends, so it
      is never worse than the input. */
  function AnnealOutcome(inst: Instance, c: Configuration, env: Env): (r: Configuration)
    requires Fits(inst, c) && Oracle(inst, env)
    ensures Fits(inst, r) && r.tour == c.tour && r.mapCI == c.mapCI
    ensures Objective(inst, r) == BestOf(Objective(inst, c), StepEnds(inst, c.tour, c.mapCI, c.plan, env, StepsRun(env, 0)))
    ensures Objective(inst, c) <= Objective(inst, r)
  {
    var ends := StepEnds(inst, c.tour, c.mapCI, c.plan, env, StepsRun(env, 0));
    Configuration(c.tour, c.mapCI, ScheduledPlan(inst, c.tour, c.mapCI, c.plan, env, BestStep(Objective(inst, c), ends)))
  }

  // ---------------------------------------------------------------------------
  // The co-solver loop
  // ---------------------------------------------------------------------------

  /** The configuration the 2-opt stand-in returns: the proposed tour, with
      the index built from it, when it improves the objective under the same
      plan; the input otherwise. */
  function TwoOptOutcome(inst: Instance, c: Configuration, proposed: seq<int>): (r: Configuration)
    requires Fits(inst, c) && IsTour(inst, proposed)
    ensures Fits(inst, r) && r.plan == c.plan
    ensures r == c || (r.tour == proposed && Objective(inst, c) < Objective(inst, r))
  {
    var m := CityIndex(inst, proposed);
    if FullObjective(inst, proposed, c.plan, m) > Objective(inst, c) then Configuration(proposed, m, c.plan) else c
  }

  /** One co-solver round on values: the 2-opt stand-in, then the annealer.
      A round never makes the objective worse. */
  function RoundOutcome(inst: Instance, c: Configuration, proposed: seq<int>, env: Env): (r: Configuration)
    requires Fits(inst, c) && IsTour(inst, proposed) && Oracle(inst, env)
    ensures Fits(inst, r)
    ensures Objective(inst, c) <= Objective(inst, r)
  {
    AnnealOutcome(inst, TwoOptOutcome(inst, c, proposed), env)
  }

  /** The oracles of one co-solver run: the tour proposed by the 2-opt search
      in round i, the oracles of the annealer run in round i, and whether the
      thread is interrupted at the end of round i. */
  datatype SolveEnv = SolveEnv(tours: nat -> seq<int>, anneal: nat -> Env, interrupted: nat -> bool)

  /** The oracles of a co-solver run propose tours and drive the annealer as
      Oracle demands. A thread's interrupt flag stays set once raised, so an
      annealer that sees it in round i leaves it set for the check that ends
      round i. */
  ghost predicate SolveOracle(inst: Instance, env: SolveEnv)
  {
    && (forall i :: IsTour(inst, env.tours(i)) && Oracle(inst, env.anneal(i)))
    && forall i, s :: env.anneal(i).interrupted(s) ==> env.interrupted(i)
  }

  /** The configuration after the first i rounds from c0. The objective
      never decreases from one round to the next. */
  function Rounds(inst: Instance, c0: Configuration, env: SolveEnv, i: nat): (c: Configuration)
    requires Fits(inst, c0) && SolveOracle(inst, env)
    ensures Fits(inst, c)
    ensures Objective(inst, c0) <= Objective(inst, c)
  {
    if i == 0 then c0
    else RoundOutcome(inst, Rounds(inst, c0, env, i - 1), env.tours(i - 1), env.anneal(i - 1))
  }

  /** Stand-in for the 2-opt tour search: the proposed tour is evaluated under
      the unchanged picking plan and kept only if it improves the objective,
      so the picking plan is unchanged and the objective is never worse. */
  method Ls2opt(inst: Instance, sol: Solution, tour: seq<int>) returns (r: Solution)
    requires sol.Valid(inst) && IsTour(inst, tour)
    ensures r.Valid(inst) && r.pickingPlan[..] == sol.pickingPlan[..]
    ensures sol.ob <= r.ob
    ensures r == sol || FreshCopy(r)
    ensures Values(r) == TwoOptOutcome(inst, Values(sol), tour)
  {
    sol.ValidObjective(inst);
    var c := new Solution.Build(inst, tour, sol.pickingPlan[..]);
    r := sol;
    if c.ob > sol.ob {
      r := c;
    }
  }

  /** All sequences of length len with entries in [lo, hi]. */
  ghost function Seqs(len: nat, lo: int, hi: int): set<seq<int>>
  {
    if len == 0 then {[]}
    else set s, c | s in Seqs(len - 1, lo, hi) && lo <= c <= hi :: s + [c]
  }

  lemma {:induction false} InSeqs(s: seq<int>, lo: int, hi: int)
    requires forall i :: 0 <= i < |s| ==> lo <= s[i] <= hi
    ensures s in Seqs(|s|, lo, hi)
  {
    if |s| > 0 {
      var p := s[..|s| - 1];
      InSeqs(p, lo, hi);
      assert s == p + [s[|s| - 1]];
    }
  }

  /** The objective values of all solutions of the instance: a finite set,
      since tours, plans and city indexes are bounded sequences. */
  ghost function Objectives(inst: Instance): set<real>
  {
    set t, p, m | t in Seqs(inst.nbCities, 1, inst.nbCities) && p in Seqs(inst.nbItems, 0, inst.nbCities)
                  && m in Seqs(inst.nbCities, 0, inst.nbCities - 1) && Shaped(inst, t, p, m)
      :: FullObjective(inst, t, p, m)
  }

  /** The objective of every valid solution is one of the finitely many values. */
  lemma ObjectiveAttainable(inst: Instance, sol: Solution)
    requires sol.Valid(inst)
    ensures sol.ob in Objectives(inst)
  {
    sol.ValidObjective(inst);
    var t, p, m := sol.tour[..], sol.pickingPlan[..], sol.mapCI[..];
    InSeqs(t, 1, inst.nbCities);
    InSeqs(p, 0, inst.nbCities);
    InSeqs(m, 0, inst.nbCities - 1);
  }

  /** The attainable objective values strictly above g. */
  ghost function Above(inst: Instance, g: real): set<real>
  {
    set v | v in Objectives(inst) && v > g
  }

  /** A strict gain to an attainable value leaves fewer attainable values above. */
  lemma AboveShrinks(inst: Instance, g: real, g': real)
    requires g < g' && g' in Objectives(inst)
    ensures |Above(inst, g')| < |Above(inst, g)|
  {
    SubsetSize(Above(inst, g'), Above(inst, g) - {g'});
  }

  /** A subset is no larger than its superset. */
  lemma SubsetSize(a: set<real>, b: set<real>)
    requires a <= b
    ensures |a| <= |b|
  {
    assert b * a == a;
    assert |b - a| + |b * a| == |b|;
  }

  /** One co-solver round: the 2-opt tour search, then the knapsack annealer
      on the plan of the solution it returns. The result is a fresh solution
      never worse than the input. */
  method Round(inst: Instance, sol: Solution, tour: seq<int>, env: Env) returns (next: Solution)
    requires sol.Valid(inst) && IsTour(inst, tour)
    requires Oracle(inst, env)
    modifies sol, sol.pickingPlan, sol.weightAcc, sol.timeAcc
    ensures next.Valid(inst) && FreshCopy(next)
    ensures old(sol.ob) <= next.ob
    ensures Values(next) == RoundOutcome(inst, old(Values(sol)), tour, env)
  {
    // the tour search first
    var lsol := Ls2opt(inst, sol, tour);
    // then the annealer on the picking plan
    ghost var ends;
    next, ends := SimulatedAnnealing(inst, lsol, env);
  }

  /** Each entry of h is a strict gain over the one before it. */
  ghost predicate Gains(h: seq<real>)
  {
    forall i :: 0 < i < |h| ==> h[i - 1] < h[i]
  }

  /** Appending x to a history h: h is the prefix and x the last entry; a
      strict gain over the last entry of h keeps the gains. */
  lemma Record(h: seq<real>, x: real)
    requires |h| > 0 && Gains(h)
    ensures |h + [x]| == |h| + 1 && (h + [x])[..|h|] == h
    ensures (h + [x])[0] == h[0] && (h + [x])[|h| - 1] == h[|h| - 1] && (h + [x])[|h|] == x
    ensures h[|h| - 1] < x ==> Gains(h + [x])
  {
  }

  /** h holds the objectives after 0, 1, ..., |h| - 1 rounds from c0. */
  ghost predicate Traced(inst: Instance, c0: Configuration, env: SolveEnv, h: seq<real>)
    requires Fits(inst, c0) && SolveOracle(inst, env)
  {
    forall i :: 0 <= i < |h| ==> h[i] == Objective(inst, Rounds(inst, c0, env, i))
  }

  /** The objective after one more round extends a trace. */
  lemma TracedAppend(inst: Instance, c0: Configuration, env: SolveEnv, h: seq<real>, x: real)
    requires Fits(inst, c0) && SolveOracle(inst, env) && Traced(inst, c0, env, h)
    requires x == Objective(inst, Rounds(inst, c0, env, |h|))
    ensures Traced(inst, c0, env, h + [x])
  {
    forall i | 0 <= i < |h| + 1
      ensures (h + [x])[i] == Objective(inst, Rounds(inst, c0, env, i))
    {
      if i < |h| {
        assert (h + [x])[i] == h[i];
      }
    }
  }

  /** The thread was not found interrupted at the end of rounds 0 to n - 1. */
  ghost predicate Uninterrupted(env: SolveEnv, n: nat)
  {
    forall i :: 0 <= i < n ==> !env.interrupted(i)
  }

  /** The co-solver: starting from a clone of the initial solution s0, each
      round runs the 2-opt tour search and then the knapsack annealer, and
      the search stops after the first round that brings no strict gain over
      the best objective so far, or after the first round at whose end the
      thread is found interrupted. `history` holds the objective of s0
      followed by the objective after each round, that is the objective of
      Rounds after 0, 1, 2, ... rounds: every round but the last is a strict
      gain, none but the last ended interrupted, the last is no loss, and an
      uninterrupted run ends on a round without gain. The returned solution
      holds the configuration of the last round. */
  method Solve(inst: Instance, s0: Solution, env: SolveEnv) returns (sol: Solution, ghost history: seq<real>)
    requires s0.Valid(inst) && SolveOracle(inst, env)
    ensures sol.Valid(inst) && FreshCopy(sol)
    ensures |history| >= 2 && history[0] == old(s0.ob) && history[|history| - 1] == sol.ob
    ensures forall i :: 0 <= i < |history| ==> history[i] == Objective(inst, Rounds(inst, old(Values(s0)), env, i))
    ensures Values(sol) == Rounds(inst, old(Values(s0)), env, |history| - 1)
    ensures Gains(history[..|history| - 1])
    ensures forall i :: 0 <= i < |history| - 2 ==> !env.interrupted(i)
    ensures history[|history| - 2] <= sol.ob
    ensures !env.interrupted(|history| - 2) ==> history[|history| - 2] == sol.ob
  {
    sol := new Solution.FromSnapshot(inst, s0.Copy());
    ghost var c0 := Values(s0);
    sol.ValidObjective(inst);
    // the objective of the best configuration so far
    var GBest := sol.ob;
    history := [GBest];
    var round: nat := 0;
    ObjectiveAttainable(inst, sol);
    while true
      invariant sol.Valid(inst) && FreshCopy(sol)
      invariant GBest == sol.ob && GBest in Objectives(inst)
      invariant Values(sol) == Rounds(inst, c0, env, round)
      invariant |history| == round + 1 && history[round] == GBest
      invariant Traced(inst, c0, env, history) && Uninterrupted(env, round)
      invariant Gains(history)
      decreases |Above(inst, GBest)|
    {
      var improved := false;
      sol := Round(inst, sol, env.tours(round), env.anneal(round));
      sol.ValidObjective(inst);
      Record(history, sol.ob);
      TracedAppend(inst, c0, env, history, sol.ob);
      history := history + [sol.ob];
      ObjectiveAttainable(inst, sol);
      // the round's objective becomes the best one
      if sol.ob > GBest {
        AboveShrinks(inst, GBest, sol.ob);
        GBest := sol.ob;
        improved := true;
      }
      // the run ends on an interrupted thread or a round without gain
      if env.interrupted(round) || !improved {
        return;
      }
      round := round + 1;
    }
  }
}
