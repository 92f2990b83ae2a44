/**
 * The mutable working state of a TTP search (the repository's `TTPSolution`):
 * tour, picking plan, the city-to-position index, the two accumulation vectors
 * and the scalars `ob`, `fp`, `ft`, `wend`. The arrays are never replaced by
 * the core, only updated, so they are constant fields; `Valid` ties every
 * derived field to the from-scratch evaluation of module Ttp.
 */
module TtpSolution {
  import opened Ttp

  /** The values held by a solution: what a deep copy (`TTPSolution.clone()`)
      preserves, kept apart from the arrays of the solution it was taken from. */
  datatype Snapshot = Snapshot(
    tour: seq<int>,
    pickingPlan: seq<int>,
    mapCI: seq<int>,
    weightAcc: seq<int>,
    timeAcc: seq<real>,
    ob: real,
    fp: int,
    ft: real,
    wend: int)

  /** A tour with its inverse index `mapCI`, and a feasible picking plan. */
  ghost predicate Shaped(inst: Instance, tour: seq<int>, plan: seq<int>, mapCI: seq<int>)
  {
    inst.Valid() && IsIndex(inst, tour, mapCI) && IsPlan(inst, plan) && Feasible(inst, plan)
  }

  /** The solution invariant: `weightAcc` and `timeAcc` are the prefix sums of
      a full traversal under the plan, `fp` is the plan's profit, `ft` the
      total time, `ob = fp - ft * R` and `wend` the capacity left. */
  ghost predicate Consistent(inst: Instance, s: Snapshot)
  {
    && Shaped(inst, s.tour, s.pickingPlan, s.mapCI)
    && Accumulated(inst, s.tour, s.pickingPlan, s.mapCI, s.weightAcc, s.timeAcc)
    && s.fp == ProfitSum(inst, s.pickingPlan)
    && s.ft == s.timeAcc[inst.nbCities - 1]
    && s.ob == NetProfit(inst, s.fp, s.ft)
    && s.wend == inst.capacity - s.weightAcc[inst.nbCities - 1]
  }

  /** The city index of a tour, built position by position over a
      zero-filled array: city t[r] gets position r. */
  method BuildIndex(inst: Instance, t: seq<int>) returns (index: array<int>)
    requires IsTour(inst, t)
    ensures fresh(index) && index[..] == CityIndex(inst, t)
  {
    var n := inst.nbCities;
    index := new int[n](_ => 0);
    var r := 0;
    while r < n
      invariant 0 <= r <= n
      invariant index[..] == IndexPrefix(inst, t, r)
    {
      index[t[r] - 1] := r;
      r := r + 1;
    }
  }

  class Solution {
    const tour: array<int>
    const pickingPlan: array<int>
    const mapCI: array<int>
    const weightAcc: array<int>
    const timeAcc: array<real>
    var ob: real
    var fp: int
    var ft: real
    var wend: int

    /** Arrays of the sizes of the instance, pairwise distinct where they
        share a type. */
    predicate Layout(inst: Instance)
    {
      && tour.Length == inst.nbCities && mapCI.Length == inst.nbCities
      && weightAcc.Length == inst.nbCities && timeAcc.Length == inst.nbCities
      && pickingPlan.Length == inst.nbItems
      && tour != mapCI && tour != pickingPlan && tour != weightAcc
      && mapCI != pickingPlan && mapCI != weightAcc && pickingPlan != weightAcc
    }

    /** Laid-out arrays holding a tour with its inverse index and a feasible
        plan; the accumulation vectors may be stale. */
    ghost predicate Shape(inst: Instance)
      reads tour, pickingPlan, mapCI
    {
      Layout(inst) && Shaped(inst, tour[..], pickingPlan[..], mapCI[..])
    }

    /** The current contents of the solution, as a value. */
    function Copy(): Snapshot
      reads this, tour, pickingPlan, mapCI, weightAcc, timeAcc
    {
      Snapshot(tour[..], pickingPlan[..], mapCI[..], weightAcc[..], timeAcc[..], ob, fp, ft, wend)
    }

    /** Laid-out arrays holding a consistent solution. */
    ghost predicate Valid(inst: Instance)
      reads this, tour, pickingPlan, mapCI, weightAcc, timeAcc
    {
      Layout(inst) && Consistent(inst, Copy())
    }

    /** A solution with fresh arrays holding the values of a snapshot: with
        `Copy`, the deep copy of the repository's `TTPSolution.clone()`. */
    constructor FromSnapshot(inst: Instance, s: Snapshot)
      requires Consistent(inst, s)
      ensures Valid(inst) && Copy() == s
      ensures fresh(tour) && fresh(pickingPlan) && fresh(mapCI) && fresh(weightAcc) && fresh(timeAcc)
    {
      tour := new int[|s.tour|](i requires 0 <= i < |s.tour| => s.tour[i]);
      pickingPlan := new int[|s.pickingPlan|](i requires 0 <= i < |s.pickingPlan| => s.pickingPlan[i]);
      mapCI := new int[|s.mapCI|](i requires 0 <= i < |s.mapCI| => s.mapCI[i]);
      weightAcc := new int[|s.weightAcc|](i requires 0 <= i < |s.weightAcc| => s.weightAcc[i]);
      timeAcc := new real[|s.timeAcc|](i requires 0 <= i < |s.timeAcc| => s.timeAcc[i]);
      ob, fp, ft, wend := s.ob, s.fp, s.ft, s.wend;
      new;
      assert tour[..] == s.tour && pickingPlan[..] == s.pickingPlan && mapCI[..] == s.mapCI;
      assert weightAcc[..] == s.weightAcc && timeAcc[..] == s.timeAcc;
    }

    /** A solution for a given tour and picking plan, evaluated from scratch:
        the index `mapCI` is built as the inverse of the tour. */
    constructor Build(inst: Instance, t: seq<int>, plan: seq<int>)
      requires inst.Valid() && IsTour(inst, t) && IsPlan(inst, plan) && Feasible(inst, plan)
      ensures Valid(inst)
      ensures fresh(tour) && fresh(pickingPlan) && fresh(mapCI) && fresh(weightAcc) && fresh(timeAcc)
      ensures tour[..] == t && pickingPlan[..] == plan && mapCI[..] == CityIndex(inst, t)
      ensures ob == FullObjective(inst, t, plan, mapCI[..])
    {
      var n := inst.nbCities;
      var index := BuildIndex(inst, t);
      tour := new int[n](i requires 0 <= i < n => t[i]);
      pickingPlan := new int[inst.nbItems](i requires 0 <= i < inst.nbItems => plan[i]);
      mapCI := index;
      weightAcc := new int[n](_ => 0);
      timeAcc := new real[n](_ => 0.0);
      new;
      assert tour[..] == t && pickingPlan[..] == plan;
      Recompute(inst);
      ValidObjective(inst);
    }

    /** The full from-scratch evaluation (`ttp.objective`): rebuilds both
        accumulation vectors and the scalars from the tour and the plan. On a
        solution that is already valid it changes nothing. */
    method Recompute(inst: Instance)
      requires Shape(inst)
      modifies this, weightAcc, timeAcc
      ensures Valid(inst)
      ensures old(Valid(inst)) ==>
        weightAcc[..] == old(weightAcc[..]) && timeAcc[..] == old(timeAcc[..]) &&
        ob == old(ob) && fp == old(fp) && ft == old(ft) && wend == old(wend)
    {
      var n := inst.nbCities;
      FillWeights(inst);
      var t := FillTimes(inst);
      if old(Valid(inst)) {
        assert timeAcc[..] == old(timeAcc[..]);
      }
      fp := ProfitSum(inst, pickingPlan[..]);
      ft := t;
      ob := NetProfit(inst, fp, ft);
      wend := inst.capacity - weightAcc[n - 1];
    }

    /** First half of the full evaluation: carried weight after every position. */
    method FillWeights(inst: Instance)
      requires Shape(inst)
      modifies weightAcc
      ensures weightAcc[..] == Weights(inst, pickingPlan[..], mapCI[..])
      ensures InRange(inst, weightAcc[..])
    {
      var n := inst.nbCities;
      ghost var ws := Weights(inst, pickingPlan[..], mapCI[..]);
      WeightsCarried(inst, pickingPlan[..], mapCI[..]);
      WeightsInRange(inst, pickingPlan[..], mapCI[..]);
      var r := 0;
      while r < n
        invariant 0 <= r <= n
        invariant forall j :: 0 <= j < r ==> weightAcc[j] == ws[j]
      {
        weightAcc[r] := Carried(inst, pickingPlan[..], mapCI[..], r);
        r := r + 1;
      }
      assert weightAcc[..] == ws;
    }

    /** Second half of the full evaluation: cumulative time after every
        position, leg by leg; returns the total travel time. */
    method FillTimes(inst: Instance) returns (t: real)
      requires Shape(inst) && |weightAcc[..]| == inst.nbCities && InRange(inst, weightAcc[..])
      modifies timeAcc
      ensures forall r :: 0 <= r < inst.nbCities ==> timeAcc[r] == TimeUpTo(inst, tour[..], weightAcc[..], r + 1)
      ensures t == timeAcc[inst.nbCities - 1]
    {
      var n := inst.nbCities;
      t := 0.0;
      var r := 0;
      while r < n
        invariant 0 <= r <= n
        invariant t == TimeUpTo(inst, tour[..], weightAcc[..], r)
        invariant forall j :: 0 <= j < r ==> timeAcc[j] == TimeUpTo(inst, tour[..], weightAcc[..], j + 1)
      {
        t := t + LegTime(inst, tour[r], tour[(r + 1) % n], weightAcc[r]);
        timeAcc[r] := t;
        r := r + 1;
      }
    }

    /** A valid solution's objective is the from-scratch objective of its tour
        and plan. */
    lemma ValidObjective(inst: Instance)
      requires Valid(inst)
      ensures ob == FullObjective(inst, tour[..], pickingPlan[..], mapCI[..])
      ensures ft == FullTime(inst, tour[..], pickingPlan[..], mapCI[..])
    {
    }

    /** The capacity invariant: the plan never carries more than the knapsack
        holds and the remaining capacity `wend` is never negative. */
    lemma CapacityInvariant(inst: Instance)
      requires Valid(inst)
      ensures weightAcc[inst.nbCities - 1] == PlanWeight(inst, pickingPlan[..], inst.nbItems)
      ensures 0 <= wend <= inst.capacity
    {
      WeightsInRange(inst, pickingPlan[..], mapCI[..]);
    }

    /** `timeAcc` is non-decreasing along the tour and ends at `ft`. */
    lemma TimeAccMonotone(inst: Instance, r: int, s: int)
      requires Valid(inst) && 0 <= r <= s < inst.nbCities
      ensures 0.0 <= timeAcc[r] <= timeAcc[s] <= ft
    {
      TimeMonotone(inst, tour[..], weightAcc[..], r + 1, s + 1);
      TimeMonotone(inst, tour[..], weightAcc[..], s + 1, inst.nbCities);
    }
  }
}
