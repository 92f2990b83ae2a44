/**
 * The Travelling Thief Problem instance and the from-scratch evaluation of a
 * solution: carried weight after each tour position, cumulative travel time
 * and net objective. These are the reference definitions against which the
 * incremental (suffix-only) recomputation of the knapsack annealer is proved.
 *
 * Cities are 1-based in tours, picking plans and availability, as in the
 * repository; tour positions and matrix indices are 0-based.
 */
module Ttp {

  /** An immutable problem instance. `dist[a][b]` is the distance between the
      0-based cities a and b; `avail[i]` is the 1-based city holding item i. */
  datatype Instance = Instance(
    nbCities: nat,
    nbItems: nat,
    dist: seq<seq<real>>,
    weight: seq<int>,
    profit: seq<int>,
    avail: seq<int>,
    capacity: int,
    minSpeed: real,
    maxSpeed: real,
    rent: real)
  {
    predicate Valid()
    {
      && nbCities > 0
      && |dist| == nbCities
      && (forall a :: 0 <= a < nbCities ==> |dist[a]| == nbCities)
      && (forall a, b :: 0 <= a < nbCities && 0 <= b < nbCities ==> dist[a][b] >= 0.0)
      && |weight| == nbItems && |profit| == nbItems && |avail| == nbItems
      && (forall i :: 0 <= i < nbItems ==> weight[i] >= 0 && profit[i] >= 0)
      && (forall i :: 0 <= i < nbItems ==> 1 <= avail[i] <= nbCities)
      && capacity > 0
      && 0.0 < minSpeed <= maxSpeed
    }
  }

  /** The speed loss per unit of carried weight, `(maxSpeed - minSpeed) / capacity`. */
  function SpeedLoss(inst: Instance): (c: real)
    requires inst.Valid()
    ensures c >= 0.0
    ensures c * (inst.capacity as real) == inst.maxSpeed - inst.minSpeed
  {
    (inst.maxSpeed - inst.minSpeed) / (inst.capacity as real)
  }

  /** Travel speed while carrying weight w. */
  function Speed(inst: Instance, w: int): (v: real)
    requires inst.Valid()
    requires 0 <= w <= inst.capacity
    ensures inst.minSpeed <= v <= inst.maxSpeed
  {
    var c := SpeedLoss(inst);
    assert (w as real) * c <= (inst.capacity as real) * c by {
      assert ((inst.capacity - w) as real) * c >= 0.0;
    }
    inst.maxSpeed - (w as real) * c
  }

  /** Time of the leg from 1-based city `from` to 1-based city `to` while
      carrying weight w. */
  function LegTime(inst: Instance, from: int, to: int, w: int): (t: real)
    requires inst.Valid()
    requires 1 <= from <= inst.nbCities && 1 <= to <= inst.nbCities
    requires 0 <= w <= inst.capacity
    ensures t >= 0.0
  {
    inst.dist[from - 1][to - 1] / Speed(inst, w)
  }

  /** Every city id of the tour is a valid 1-based city. */
  predicate TourShape(inst: Instance, tour: seq<int>)
  {
    |tour| == inst.nbCities && forall r :: 0 <= r < |tour| ==> 1 <= tour[r] <= inst.nbCities
  }

  /** A tour is a sequence of distinct cities, one per position. */
  predicate IsTour(inst: Instance, tour: seq<int>)
  {
    TourShape(inst, tour) && forall r, s :: 0 <= r < s < |tour| ==> tour[r] != tour[s]
  }

  /** `mapCI` holds one tour position per (0-based) city. */
  predicate IndexShape(inst: Instance, mapCI: seq<int>)
  {
    |mapCI| == inst.nbCities && forall c :: 0 <= c < |mapCI| ==> 0 <= mapCI[c] < inst.nbCities
  }

  /** `mapCI` is the inverse of the tour: the city at position r sits at position r. */
  predicate IsIndex(inst: Instance, tour: seq<int>, mapCI: seq<int>)
  {
    TourShape(inst, tour) && IndexShape(inst, mapCI) &&
    forall r :: 0 <= r < |tour| ==> mapCI[tour[r] - 1] == r
  }

  /** The city index after tour positions 0 to len - 1 have been written
      over a zero-filled index: city tour[r] gets position r. */
  function IndexPrefix(inst: Instance, tour: seq<int>, len: nat): (m: seq<int>)
    requires TourShape(inst, tour) && len <= |tour|
    ensures |m| == inst.nbCities
  {
    if len == 0 then seq(inst.nbCities, _ => 0)
    else IndexPrefix(inst, tour, len - 1)[tour[len - 1] - 1 := len - 1]
  }

  /** Over a tour of distinct cities, every position written stays in place,
      and every entry is a tour position. */
  lemma {:induction false} IndexPrefixInverse(inst: Instance, tour: seq<int>, len: nat)
    requires IsTour(inst, tour) && len <= |tour|
    ensures forall c :: 0 <= c < inst.nbCities ==> 0 <= IndexPrefix(inst, tour, len)[c] < inst.nbCities
    ensures forall r :: 0 <= r < len ==> IndexPrefix(inst, tour, len)[tour[r] - 1] == r
  {
    if len > 0 {
      IndexPrefixInverse(inst, tour, len - 1);
    }
  }

  /** The index built from a tour, by writing every position: the inverse of
      the tour. */
  function CityIndex(inst: Instance, tour: seq<int>): (m: seq<int>)
    requires IsTour(inst, tour)
    ensures IsIndex(inst, tour, m)
  {
    IndexPrefixInverse(inst, tour, |tour|);
    IndexPrefix(inst, tour, |tour|)
  }

  /** A picking plan has one entry per item: 0 when not carried, otherwise the
      city where the item is available. */
  predicate IsPlan(inst: Instance, plan: seq<int>)
    requires inst.Valid()
  {
    |plan| == inst.nbItems && forall i :: 0 <= i < |plan| ==> plan[i] == 0 || plan[i] == inst.avail[i]
  }

  /** All weights lie between 0 and the capacity (so every speed is positive). */
  predicate InRange(inst: Instance, ws: seq<int>)
  {
    forall r :: 0 <= r < |ws| ==> 0 <= ws[r] <= inst.capacity
  }

  /** The tour position at which item i is picked up. */
  function ItemPos(inst: Instance, mapCI: seq<int>, i: int): int
    requires inst.Valid() && |mapCI| == inst.nbCities && 0 <= i < inst.nbItems
  {
    mapCI[inst.avail[i] - 1]
  }

  /** Total weight of the picked items among the first m. */
  function PlanWeight(inst: Instance, plan: seq<int>, m: nat): int
    requires inst.Valid() && |plan| == inst.nbItems && m <= inst.nbItems
  {
    if m == 0 then 0
    else PlanWeight(inst, plan, m - 1) + (if plan[m - 1] != 0 then inst.weight[m - 1] else 0)
  }

  /** Total profit of the picked items among the first m. */
  function PlanProfit(inst: Instance, plan: seq<int>, m: nat): int
    requires inst.Valid() && |plan| == inst.nbItems && m <= inst.nbItems
  {
    if m == 0 then 0
    else PlanProfit(inst, plan, m - 1) + (if plan[m - 1] != 0 then inst.profit[m - 1] else 0)
  }

  /** The raw profit `fp` of a picking plan. */
  function ProfitSum(inst: Instance, plan: seq<int>): int
    requires inst.Valid() && |plan| == inst.nbItems
  {
    PlanProfit(inst, plan, inst.nbItems)
  }

  /** A plan is feasible when the weight of its items fits in the knapsack. */
  predicate Feasible(inst: Instance, plan: seq<int>)
    requires inst.Valid() && |plan| == inst.nbItems
  {
    PlanWeight(inst, plan, inst.nbItems) <= inst.capacity
  }

  /** Weight of the picked items among the first m that are on board after
      the city at tour position r has been visited. */
  function CarriedBy(inst: Instance, plan: seq<int>, mapCI: seq<int>, r: int, m: nat): int
    requires inst.Valid() && |plan| == inst.nbItems && |mapCI| == inst.nbCities && m <= inst.nbItems
  {
    if m == 0 then 0
    else CarriedBy(inst, plan, mapCI, r, m - 1) +
         (if plan[m - 1] != 0 && ItemPos(inst, mapCI, m - 1) <= r then inst.weight[m - 1] else 0)
  }

  /** Weight carried on the leg leaving tour position r. */
  function Carried(inst: Instance, plan: seq<int>, mapCI: seq<int>, r: int): int
    requires inst.Valid() && |plan| == inst.nbItems && |mapCI| == inst.nbCities
  {
    CarriedBy(inst, plan, mapCI, r, inst.nbItems)
  }

  /** The first m entries of the weight accumulation vector `weightAcc`,
      recomputed from scratch. */
  function WeightsUpTo(inst: Instance, plan: seq<int>, mapCI: seq<int>, m: nat): (ws: seq<int>)
    requires inst.Valid() && |plan| == inst.nbItems && |mapCI| == inst.nbCities
    ensures |ws| == m
  {
    if m == 0 then [] else WeightsUpTo(inst, plan, mapCI, m - 1) + [Carried(inst, plan, mapCI, m - 1)]
  }

  /** The weight accumulation vector `weightAcc` recomputed from scratch. */
  function Weights(inst: Instance, plan: seq<int>, mapCI: seq<int>): (ws: seq<int>)
    requires inst.Valid() && |plan| == inst.nbItems && |mapCI| == inst.nbCities
    ensures |ws| == inst.nbCities
  {
    WeightsUpTo(inst, plan, mapCI, inst.nbCities)
  }

  /** Travel time of the first m legs of the closed tour, leg r carrying ws[r];
      the leg leaving the last position returns to the first city. */
  function TimeUpTo(inst: Instance, tour: seq<int>, ws: seq<int>, m: nat): real
    requires inst.Valid() && TourShape(inst, tour)
    requires |ws| == inst.nbCities && InRange(inst, ws) && m <= inst.nbCities
  {
    if m == 0 then 0.0
    else
      TimeUpTo(inst, tour, ws, m - 1) +
      LegTime(inst, tour[m - 1], tour[m % inst.nbCities], ws[m - 1])
  }

  /** One more leg: the time of the first r + 1 legs is that of the first r
      plus leg r under its carried weight ws[r]. */
  lemma TimeUpToStep(inst: Instance, tour: seq<int>, ws: seq<int>, r: nat)
    requires inst.Valid() && TourShape(inst, tour)
    requires |ws| == inst.nbCities && InRange(inst, ws) && r < inst.nbCities
    ensures 0 <= ws[r] <= inst.capacity
    ensures TimeUpTo(inst, tour, ws, r + 1) ==
      TimeUpTo(inst, tour, ws, r) + LegTime(inst, tour[r], tour[(r + 1) % inst.nbCities], ws[r])
  {
  }

  /** `wacc` and `tacc` are the accumulation vectors of a full traversal of
      the tour under the plan: carried weight and cumulative time after each
      position. */
  predicate Accumulated(inst: Instance, tour: seq<int>, plan: seq<int>, mapCI: seq<int>, wacc: seq<int>, tacc: seq<real>)
    requires inst.Valid() && TourShape(inst, tour) && |plan| == inst.nbItems && |mapCI| == inst.nbCities
  {
    && wacc == Weights(inst, plan, mapCI)
    && InRange(inst, wacc)
    && |tacc| == inst.nbCities
    && forall r :: 0 <= r < |tacc| ==> tacc[r] == TimeUpTo(inst, tour, wacc, r + 1)
  }

  /** Total travel time `ft` of the closed tour under a plan, from scratch. */
  function FullTime(inst: Instance, tour: seq<int>, plan: seq<int>, mapCI: seq<int>): real
    requires inst.Valid() && TourShape(inst, tour) && IndexShape(inst, mapCI)
    requires IsPlan(inst, plan) && Feasible(inst, plan)
  {
    WeightsInRange(inst, plan, mapCI);
    TimeUpTo(inst, tour, Weights(inst, plan, mapCI), inst.nbCities)
  }

  /** Net profit: raw profit minus the rent of the knapsack for the travel time. */
  function NetProfit(inst: Instance, fp: int, ft: real): real
  {
    fp as real - ft * inst.rent
  }

  /** The net objective `ob = fp - ft * R`, from scratch. */
  function FullObjective(inst: Instance, tour: seq<int>, plan: seq<int>, mapCI: seq<int>): real
    requires inst.Valid() && TourShape(inst, tour) && IndexShape(inst, mapCI)
    requires IsPlan(inst, plan) && Feasible(inst, plan)
  {
    NetProfit(inst, ProfitSum(inst, plan), FullTime(inst, tour, plan, mapCI))
  }

  /** The bit-flip of item k: picked at its availability city if it was not
      carried, dropped otherwise. */
  function Toggle(inst: Instance, plan: seq<int>, k: int): (p: seq<int>)
    requires inst.Valid() && IsPlan(inst, plan) && 0 <= k < inst.nbItems
    ensures IsPlan(inst, p)
    ensures (p[k] != 0) == (plan[k] == 0)
    ensures forall i :: 0 <= i < |p| && i != k ==> p[i] == plan[i]
  {
    plan[k := if plan[k] != 0 then 0 else inst.avail[k]]
  }

  /** Weight change of flipping item k: +weight if it is added, -weight if dropped. */
  function DeltaW(inst: Instance, plan: seq<int>, k: int): int
    requires inst.Valid() && |plan| == inst.nbItems && 0 <= k < inst.nbItems
  {
    if plan[k] == 0 then inst.weight[k] else -inst.weight[k]
  }

  /** Profit change of flipping item k. */
  function DeltaP(inst: Instance, plan: seq<int>, k: int): int
    requires inst.Valid() && |plan| == inst.nbItems && 0 <= k < inst.nbItems
  {
    if plan[k] == 0 then inst.profit[k] else -inst.profit[k]
  }

  // ---------------------------------------------------------------------------
  // Lemmas about the from-scratch evaluation
  // ---------------------------------------------------------------------------

  /** Entry r of the first m weights is the weight on board after position r. */
  lemma {:induction false} WeightsUpToAt(inst: Instance, plan: seq<int>, mapCI: seq<int>, m: nat, r: int)
    requires inst.Valid() && |plan| == inst.nbItems && |mapCI| == inst.nbCities
    requires 0 <= r < m
    ensures WeightsUpTo(inst, plan, mapCI, m)[r] == Carried(inst, plan, mapCI, r)
  {
    if r < m - 1 {
      WeightsUpToAt(inst, plan, mapCI, m - 1, r);
    }
  }

  /** The weight vector holds, at every tour position, the weight on board
      after that position. */
  lemma WeightsCarried(inst: Instance, plan: seq<int>, mapCI: seq<int>)
    requires inst.Valid() && |plan| == inst.nbItems && |mapCI| == inst.nbCities
    ensures forall r :: 0 <= r < inst.nbCities ==> Weights(inst, plan, mapCI)[r] == Carried(inst, plan, mapCI, r)
  {
    forall r | 0 <= r < inst.nbCities
      ensures Weights(inst, plan, mapCI)[r] == Carried(inst, plan, mapCI, r)
    {
      WeightsUpToAt(inst, plan, mapCI, inst.nbCities, r);
    }
  }

  /** Flipping an item is an involution on picking plans. */
  lemma ToggleInvolution(inst: Instance, plan: seq<int>, k: int)
    requires inst.Valid() && IsPlan(inst, plan) && 0 <= k < inst.nbItems
    ensures Toggle(inst, Toggle(inst, plan, k), k) == plan
  {
  }

  lemma {:induction false} PlanWeightNonNegative(inst: Instance, plan: seq<int>, m: nat)
    requires inst.Valid() && |plan| == inst.nbItems && m <= inst.nbItems
    ensures PlanWeight(inst, plan, m) >= 0
  {
    if m > 0 {
      PlanWeightNonNegative(inst, plan, m - 1);
    }
  }

  /** Weights are non-negative, so the weight of a prefix of the items never
      exceeds the plan's total. */
  lemma {:induction false} PlanWeightMonotone(inst: Instance, plan: seq<int>, m: nat, m': nat)
    requires inst.Valid() && |plan| == inst.nbItems && m <= m' <= inst.nbItems
    ensures PlanWeight(inst, plan, m) <= PlanWeight(inst, plan, m')
  {
    if m < m' {
      PlanWeightMonotone(inst, plan, m, m' - 1);
    }
  }

  /** An item heavier than the knapsack is never part of a feasible plan. */
  lemma OversizedNeverPicked(inst: Instance, plan: seq<int>, i: int)
    requires inst.Valid() && IsPlan(inst, plan) && Feasible(inst, plan)
    requires 0 <= i < inst.nbItems && inst.weight[i] > inst.capacity
    ensures plan[i] == 0
  {
    PlanWeightNonNegative(inst, plan, i);
    PlanWeightMonotone(inst, plan, i + 1, inst.nbItems);
  }

  /** The carried weight is non-negative and never decreases along the tour. */
  lemma {:induction false} CarriedByMonotone(inst: Instance, plan: seq<int>, mapCI: seq<int>, r: int, r': int, m: nat)
    requires inst.Valid() && |plan| == inst.nbItems && |mapCI| == inst.nbCities && m <= inst.nbItems
    requires r <= r'
    ensures 0 <= CarriedBy(inst, plan, mapCI, r, m) <= CarriedBy(inst, plan, mapCI, r', m)
  {
    if m > 0 {
      CarriedByMonotone(inst, plan, mapCI, r, r', m - 1);
    }
  }

  /** After the last position every picked item is on board, whatever the tour. */
  lemma {:induction false} CarriedByAll(inst: Instance, plan: seq<int>, mapCI: seq<int>, m: nat)
    requires inst.Valid() && |plan| == inst.nbItems && IndexShape(inst, mapCI) && m <= inst.nbItems
    ensures CarriedBy(inst, plan, mapCI, inst.nbCities - 1, m) == PlanWeight(inst, plan, m)
  {
    if m > 0 {
      CarriedByAll(inst, plan, mapCI, m - 1);
    }
  }

  /** The from-scratch weight vector of a feasible plan stays within capacity,
      and its last entry is the plan's total weight. */
  lemma WeightsInRange(inst: Instance, plan: seq<int>, mapCI: seq<int>)
    requires inst.Valid() && |plan| == inst.nbItems && IndexShape(inst, mapCI) && Feasible(inst, plan)
    ensures InRange(inst, Weights(inst, plan, mapCI))
    ensures Weights(inst, plan, mapCI)[inst.nbCities - 1] == PlanWeight(inst, plan, inst.nbItems)
  {
    var ws := Weights(inst, plan, mapCI);
    WeightsCarried(inst, plan, mapCI);
    CarriedByAll(inst, plan, mapCI, inst.nbItems);
    forall r | 0 <= r < |ws|
      ensures 0 <= ws[r] <= inst.capacity
    {
      CarriedByMonotone(inst, plan, mapCI, r, inst.nbCities - 1, inst.nbItems);
    }
  }

  /** Flipping item k changes the weight on board at position r by DeltaW
      exactly when r is at or after the item's position, and leaves it alone
      before. */
  lemma {:induction false} FlipCarriedBy(inst: Instance, plan: seq<int>, mapCI: seq<int>, k: int, r: int, m: nat)
    requires inst.Valid() && IsPlan(inst, plan) && |mapCI| == inst.nbCities
    requires 0 <= k < inst.nbItems && m <= inst.nbItems
    ensures CarriedBy(inst, Toggle(inst, plan, k), mapCI, r, m) ==
            CarriedBy(inst, plan, mapCI, r, m) +
            (if k < m && ItemPos(inst, mapCI, k) <= r then DeltaW(inst, plan, k) else 0)
  {
    if m > 0 {
      FlipCarriedBy(inst, plan, mapCI, k, r, m - 1);
    }
  }

  /** The weight vector after a flip: unchanged before the flip position,
      shifted by DeltaW from it on. */
  lemma FlipWeights(inst: Instance, plan: seq<int>, mapCI: seq<int>, k: int)
    requires inst.Valid() && IsPlan(inst, plan) && |mapCI| == inst.nbCities && 0 <= k < inst.nbItems
    ensures forall r :: 0 <= r < inst.nbCities ==>
      Weights(inst, Toggle(inst, plan, k), mapCI)[r] ==
      Weights(inst, plan, mapCI)[r] + (if ItemPos(inst, mapCI, k) <= r then DeltaW(inst, plan, k) else 0)
  {
    WeightsCarried(inst, plan, mapCI);
    WeightsCarried(inst, Toggle(inst, plan, k), mapCI);
    forall r | 0 <= r < inst.nbCities
      ensures Weights(inst, Toggle(inst, plan, k), mapCI)[r] ==
        Weights(inst, plan, mapCI)[r] + (if ItemPos(inst, mapCI, k) <= r then DeltaW(inst, plan, k) else 0)
    {
      FlipCarriedBy(inst, plan, mapCI, k, r, inst.nbItems);
    }
  }

  lemma {:induction false} FlipPlanWeight(inst: Instance, plan: seq<int>, k: int, m: nat)
    requires inst.Valid() && IsPlan(inst, plan) && 0 <= k < inst.nbItems && m <= inst.nbItems
    ensures PlanWeight(inst, Toggle(inst, plan, k), m) ==
            PlanWeight(inst, plan, m) + (if k < m then DeltaW(inst, plan, k) else 0)
  {
    if m > 0 {
      FlipPlanWeight(inst, plan, k, m - 1);
    }
  }

  /** Flipping item k changes the raw profit by DeltaP. */
  lemma {:induction false} FlipPlanProfit(inst: Instance, plan: seq<int>, k: int, m: nat)
    requires inst.Valid() && IsPlan(inst, plan) && 0 <= k < inst.nbItems && m <= inst.nbItems
    ensures PlanProfit(inst, Toggle(inst, plan, k), m) ==
            PlanProfit(inst, plan, m) + (if k < m then DeltaP(inst, plan, k) else 0)
  {
    if m > 0 {
      FlipPlanProfit(inst, plan, k, m - 1);
    }
  }

  /** The capacity guard of the annealer: dropping an item, or adding one no
      heavier than the remaining capacity, keeps a feasible plan feasible. */
  lemma FlipFeasible(inst: Instance, plan: seq<int>, k: int)
    requires inst.Valid() && IsPlan(inst, plan) && Feasible(inst, plan) && 0 <= k < inst.nbItems
    requires plan[k] == 0 ==> inst.weight[k] <= inst.capacity - PlanWeight(inst, plan, inst.nbItems)
    ensures Feasible(inst, Toggle(inst, plan, k))
  {
    FlipPlanWeight(inst, plan, k, inst.nbItems);
  }

  /** Travel time up to m depends only on the first m weights. */
  lemma {:induction false} TimePrefix(inst: Instance, tour: seq<int>, ws: seq<int>, ws': seq<int>, m: nat)
    requires inst.Valid() && TourShape(inst, tour)
    requires |ws| == inst.nbCities && InRange(inst, ws)
    requires |ws'| == inst.nbCities && InRange(inst, ws')
    requires m <= inst.nbCities
    requires forall j :: 0 <= j < m ==> ws[j] == ws'[j]
    ensures TimeUpTo(inst, tour, ws, m) == TimeUpTo(inst, tour, ws', m)
  {
    if m > 0 {
      TimePrefix(inst, tour, ws, ws', m - 1);
    }
  }

  /** Cumulative travel time never decreases along the tour. */
  lemma {:induction false} TimeMonotone(inst: Instance, tour: seq<int>, ws: seq<int>, m: nat, m': nat)
    requires inst.Valid() && TourShape(inst, tour)
    requires |ws| == inst.nbCities && InRange(inst, ws)
    requires m <= m' <= inst.nbCities
    ensures 0.0 <= TimeUpTo(inst, tour, ws, m) <= TimeUpTo(inst, tour, ws, m')
  {
    if m < m' {
      TimeMonotone(inst, tour, ws, m, m' - 1);
    } else if m > 0 {
      TimeMonotone(inst, tour, ws, m - 1, m - 1);
    }
  }
}
