/** The advisory rebalance: universe, bounds, solve, turnover budget, quantization (rebalance.py). */
module Rebalance {
  import opened Vectors
  import opened CappedSimplex
  import opened QpSolver
  import opened SolverBounds
  import opened Rounding
  import opened Turnover
  import opened Wrappers
  import opened Sleeves

  datatype Position = Position(sleeve: Sleeve, marketValue: Option<real>)

  datatype AllocationTarget = AllocationTarget(assetClass: Sleeve, minWeight: real, maxWeight: real)

  // ----- current weights

  function ValueOf(p: Position): real {
    p.marketValue.GetOr(0.0)
  }

  function MarketValue(positions: seq<Position>): real {
    if |positions| == 0 then 0.0
    else MarketValue(positions[..|positions| - 1]) + ValueOf(positions[|positions| - 1])
  }

  function SleeveValue(positions: seq<Position>, s: Sleeve): real {
    if |positions| == 0 then 0.0
    else
      var last := positions[|positions| - 1];
      SleeveValue(positions[..|positions| - 1], s) + if last.sleeve == s then ValueOf(last) else 0.0
  }

  /** The share of the book's market value held in a sleeve. */
  function Weight(positions: seq<Position>, s: Sleeve): real
    requires MarketValue(positions) != 0.0
  {
    Div(SleeveValue(positions, s), MarketValue(positions))
  }

  predicate Held(positions: seq<Position>, s: Sleeve) {
    exists i :: 0 <= i < |positions| && positions[i].sleeve == s && positions[i].marketValue.Some?
  }

  /** Weight per sleeve; none when the book has no market value. */
  method CurrentWeights(positions: seq<Position>) returns (r: Option<map<Sleeve, real>>)
    ensures r.None? <==> MarketValue(positions) <= 0.0
    ensures r.Some? ==> forall s :: s in r.value <==> Held(positions, s)
    ensures r.Some? ==> forall s :: s in r.value ==> r.value[s] == Weight(positions, s)
  {
    var totalMv := 0.0;
    for k := 0 to |positions|
      invariant totalMv == MarketValue(positions[..k])
    {
      assert positions[..k + 1][..k] == positions[..k];
      totalMv := totalMv + positions[k].marketValue.GetOr(0.0);
    }
    assert positions[..|positions|] == positions;
    if totalMv <= 0.0 {
      return None;
    }
    hide Div;
    DivFacts(0.0, 0.0, totalMv);
    var weights: map<Sleeve, real> := map[];
    for k := 0 to |positions|
      invariant forall s :: s in weights <==> Held(positions[..k], s)
      invariant forall s :: (if s in weights then weights[s] else 0.0) == Div(SleeveValue(positions[..k], s), totalMv)
    {
      HeldStep(positions, k);
      assert positions[..k + 1][..k] == positions[..k];
      var pos := positions[k];
      if pos.marketValue.Some? {
        var before := if pos.sleeve in weights then weights[pos.sleeve] else 0.0;
        DivFacts(SleeveValue(positions[..k], pos.sleeve), pos.marketValue.value, totalMv);
        weights := weights[pos.sleeve := before + Div(pos.marketValue.value, totalMv)];
      }
    }
    r := Some(weights);
  }

  lemma HeldStep(positions: seq<Position>, k: nat)
    requires k < |positions|
    ensures forall s :: Held(positions[..k + 1], s)
              <==> Held(positions[..k], s) || (positions[k].sleeve == s && positions[k].marketValue.Some?)
  {
    forall s
      ensures Held(positions[..k + 1], s)
              <==> Held(positions[..k], s) || (positions[k].sleeve == s && positions[k].marketValue.Some?)
    {
      if Held(positions[..k], s) {
        var i :| 0 <= i < k && positions[..k][i].sleeve == s && positions[..k][i].marketValue.Some?;
        assert positions[..k + 1][i] == positions[..k][i];
      }
      if positions[k].sleeve == s && positions[k].marketValue.Some? {
        assert positions[..k + 1][k] == positions[k];
      }
    }
  }

  // ----- universe and bounds

  function TargetFor(targets: seq<AllocationTarget>, s: Sleeve): Option<AllocationTarget> {
    if |targets| == 0 then None
    else if targets[|targets| - 1].assetClass == s then Some(targets[|targets| - 1])
    else TargetFor(targets[..|targets| - 1], s)
  }

  function Covered(targets: seq<AllocationTarget>, s: Sleeve): bool {
    TargetFor(targets, s).Some?
  }

  /** The sleeves of the list that are held or have a target, in list order. */
  function Select(sleeves: seq<Sleeve>, positions: seq<Position>, targets: seq<AllocationTarget>): (u: seq<Sleeve>)
    ensures |u| <= |sleeves|
    ensures forall s :: s in u <==> s in sleeves && (Held(positions, s) || Covered(targets, s))
  {
    if |sleeves| == 0 then []
    else
      var rest := Select(sleeves[1..], positions, targets);
      if Held(positions, sleeves[0]) || Covered(targets, sleeves[0]) then [sleeves[0]] + rest else rest
  }

  function Universe(positions: seq<Position>, targets: seq<AllocationTarget>): seq<Sleeve> {
    Select(SLEEVES, positions, targets)
  }

  lemma {:induction false} SelectDistinct(sleeves: seq<Sleeve>, positions: seq<Position>,
                                          targets: seq<AllocationTarget>)
    requires Distinct(sleeves)
    ensures Distinct(Select(sleeves, positions, targets))
  {
    if |sleeves| == 0 {
    } else {
      SelectDistinct(sleeves[1..], positions, targets);
      assert forall j :: 0 < j < |sleeves| ==> sleeves[j] != sleeves[0];
      assert sleeves[0] !in sleeves[1..];
    }
  }

  lemma {:induction false} SelectOrdered(sleeves: seq<Sleeve>, positions: seq<Position>,
                                         targets: seq<AllocationTarget>)
    requires Ordered(sleeves)
    ensures Ordered(Select(sleeves, positions, targets))
  {
    if |sleeves| > 0 {
      SelectOrdered(sleeves[1..], positions, targets);
      forall s | s in sleeves[1..]
        ensures Rank(sleeves[0]) < Rank(s)
      {
        var j :| 0 <= j < |sleeves| - 1 && sleeves[1..][j] == s;
        assert sleeves[j + 1] == s;
      }
    }
  }

  function FloorOf(targets: seq<AllocationTarget>, s: Sleeve): real {
    match TargetFor(targets, s)
    case None => 0.0
    case Some(t) => t.minWeight
  }

  function CapOf(targets: seq<AllocationTarget>, s: Sleeve): real {
    match TargetFor(targets, s)
    case None => 1.0
    case Some(t) => t.maxWeight
  }

  function Floors(targets: seq<AllocationTarget>, universe: seq<Sleeve>): (v: Vec)
    ensures |v| == |universe|
  {
    seq(|universe|, i requires 0 <= i < |universe| => FloorOf(targets, universe[i]))
  }

  function Caps(targets: seq<AllocationTarget>, universe: seq<Sleeve>): (v: Vec)
    ensures |v| == |universe|
  {
    seq(|universe|, i requires 0 <= i < |universe| => CapOf(targets, universe[i]))
  }

  /** Bounds per sleeve of the universe; a sleeve without a target is free in [0, 1] and flagged. */
  method AssembleBounds(universe: seq<Sleeve>, targets: seq<AllocationTarget>)
    returns (wMin: Vec, wMax: Vec, unbounded: seq<Sleeve>)
    ensures wMin == Floors(targets, universe) && wMax == Caps(targets, universe)
    ensures forall s :: s in unbounded <==> s in universe && !Covered(targets, s)
    ensures Ordered(universe) ==> Ordered(unbounded)
  {
    wMin, wMax, unbounded := [], [], [];
    for k := 0 to |universe|
      invariant wMin == Floors(targets, universe[..k]) && wMax == Caps(targets, universe[..k])
      invariant forall s :: s in unbounded <==> s in universe[..k] && !Covered(targets, s)
      invariant Ordered(universe) ==> Ordered(unbounded)
    {
      LaterInOrder(universe, unbounded, k);
      var target := TargetFor(targets, universe[k]);
      assert universe[..k + 1] == universe[..k] + [universe[k]];
      if target.None? {
        unbounded := unbounded + [universe[k]];
        wMin := wMin + [0.0];
        wMax := wMax + [1.0];
      } else {
        wMin := wMin + [target.value.minWeight];
        wMax := wMax + [target.value.maxWeight];
      }
    }
    assert universe[..|universe|] == universe;
  }

  lemma LaterInOrder(universe: seq<Sleeve>, earlier: seq<Sleeve>, k: nat)
    requires k < |universe| && forall s :: s in earlier ==> s in universe[..k]
    ensures Ordered(universe) && Ordered(earlier) ==> Ordered(earlier + [universe[k]])
  {
    if Ordered(universe) {
      forall i | 0 <= i < |earlier|
        ensures Rank(earlier[i]) < Rank(universe[k])
      {
        assert earlier[i] in universe[..k];
      }
    }
  }

  // ----- the current weights sum to one

  function SleeveValues(positions: seq<Position>, universe: seq<Sleeve>): (v: Vec)
    ensures |v| == |universe|
  {
    seq(|universe|, i requires 0 <= i < |universe| => SleeveValue(positions, universe[i]))
  }

  function CurrentVector(positions: seq<Position>, universe: seq<Sleeve>): (v: Vec)
    requires MarketValue(positions) != 0.0
    ensures |v| == |universe|
  {
    seq(|universe|, i requires 0 <= i < |universe| => Weight(positions, universe[i]))
  }

  lemma {:induction false} TotalBump(x: Vec, y: Vec, k: nat, c: real)
    requires |x| == |y| && k < |x| && y[k] == x[k] + c
    requires forall i :: 0 <= i < |x| && i != k ==> y[i] == x[i]
    ensures Total(y) == Total(x) + c
  {
    if k == 0 {
      assert x[1..] == y[1..];
    } else {
      TotalBump(x[1..], y[1..], k - 1, c);
    }
  }

  lemma {:induction false} TotalOfZeros(x: Vec)
    requires forall i :: 0 <= i < |x| ==> x[i] == 0.0
    ensures Total(x) == 0.0
  {
    if |x| == 0 {
    } else {
      TotalOfZeros(x[1..]);
    }
  }

  /** Over distinct sleeves that include every held one, the sleeve values add up to the market value. */
  lemma {:induction false} SleevesPartitionValue(positions: seq<Position>, universe: seq<Sleeve>)
    requires Distinct(universe) && forall s :: Held(positions, s) ==> s in universe
    ensures Total(SleeveValues(positions, universe)) == MarketValue(positions)
  {
    if |positions| == 0 {
      TotalOfZeros(SleeveValues(positions, universe));
    } else {
      var k := |positions| - 1;
      var last := positions[k];
      assert positions[..k + 1] == positions;
      HeldStep(positions, k);
      SleevesPartitionValue(positions[..k], universe);
      var before, after := SleeveValues(positions[..k], universe), SleeveValues(positions, universe);
      if last.marketValue.Some? {
        assert Held(positions, last.sleeve);
        var i :| 0 <= i < |universe| && universe[i] == last.sleeve;
        TotalBump(before, after, i, ValueOf(last));
      } else {
        assert before == after;
      }
    }
  }

  lemma CurrentWeightsSumToOne(positions: seq<Position>, targets: seq<AllocationTarget>)
    requires MarketValue(positions) > 0.0
    ensures Total(CurrentVector(positions, Universe(positions, targets))) == 1.0
    ensures 0 < |Universe(positions, targets)| <= 6 && Distinct(Universe(positions, targets))
  {
    var u, t := Universe(positions, targets), MarketValue(positions);
    SelectDistinct(SLEEVES, positions, targets);
    forall s | Held(positions, s)
      ensures s in u
    {
      assert s in SLEEVES by {
        SleeveListed(s);
      }
    }
    SleevesPartitionValue(positions, u);
    var values, weights := SleeveValues(positions, u), CurrentVector(positions, u);
    hide Total, SleeveValue, MarketValue, Mul;
    forall i | 0 <= i < |weights|
      ensures weights[i] == Mul(1.0 / t, values[i]) + Mul(0.0, values[i])
    {
      DivideIsScale(values[i], t);
      MulZero(values[i]);
    }
    TotalLinear(1.0 / t, values, 0.0, values, weights);
    MulZero(t);
    DivideIsScale(t, t);
    TotalNonEmpty(weights);
  }

  lemma TotalNonEmpty(v: Vec)
    requires Total(v) != 0.0
    ensures |v| > 0
  {
  }

  lemma SleeveListed(s: Sleeve)
    ensures s in SLEEVES
  {
  }

  lemma DivideIsScale(x: real, t: real)
    requires t > 0.0
    ensures Div(x, t) == Mul(1.0 / t, x)
    ensures Div(t, t) == 1.0
  {
  }

  // ----- how large the projection error can get

  /** Expected returns and current weights beyond this are not weights or returns of a real book. */
  const SANE := 1000000.0

  ghost predicate UnitBounds(lo: Vec, hi: Vec) {
    IsBox(lo, hi) && forall i :: 0 <= i < |lo| ==> 0.0 <= lo[i] && hi[i] <= 1.0
  }

  /** Two hundred halvings bring any sane bracket over at most six sleeves below the sum tolerance. */
  lemma MassErrorSmall(v: Vec, lo: Vec, hi: Vec)
    requires 0 < |v| == |lo| <= 6 && UnitBounds(lo, hi)
    requires Within(v, 10000000000000000000.0)
    ensures MassError(v, lo, hi, BISECTIONS) == SUM_TOLERANCE
  {
    var c := 10000000000000000000.0;
    assert Width(v, lo, hi) <= 2.0 * (c + 1.0) by {
      var i :| 0 <= i < |v| && Sub(v, lo)[i] == HiTau(v, lo);
      var j :| 0 <= j < |v| && Sub(v, hi)[j] == LoTau(v, hi);
      assert Abs(v[i]) <= c && Abs(v[j]) <= c;
    }
    Pow2Large();
    hide Width, Pow2;
    SmallQuotient(|v|, Width(v, lo, hi), Pow2(BISECTIONS));
  }

  lemma SmallQuotient(n: nat, w: real, p: real)
    requires n <= 6 && w <= 20000000000000000002.0
    requires p >= 1000000000000000000000000000000000000000000000.0
    ensures Times(n, w) / p <= SUM_TOLERANCE
  {
    var top := 120000000000000000012.0;
    assert Times(n, w) <= top by {
      hide Mul;
      if 0.0 <= w {
        MulSigns(6.0 - n as real, w);
        MulSub(6.0, n as real, w);
        SixTimes(w);
      } else {
        MulSigns(n as real, -w);
        MulMinus(n as real, w);
      }
    }
    hide Times;
    QuotientAtMost(Times(n, w), p, SUM_TOLERANCE);
  }

  lemma SixTimes(w: real)
    ensures Mul(6.0, w) == 6.0 * w
  {
  }

  lemma QuotientAtMost(a: real, p: real, q: real)
    requires 0.0 < p && a <= p * q
    ensures a / p <= q
  {
  }

  /** The point the solver projects stays of sane size, whatever the risk aversion and the covariance. */
  lemma CandidateWithin(p: Problem, w: Vec)
    requires Shaped(p) && |p.mu| > 0 && 0.0 <= p.lam && Within(p.mu, SANE)
    requires |w| == |p.mu| && Within(w, 1.0)
    ensures Within(Candidate(p, w), 10000000000000000000.0)
  {
    hide Mul, StepOf, Candidate;
    CandidateReach(p, w, 1.0, SANE);
    StepOfBounds(p);
    ProductAtMost(StepOf(p), SANE, 1000000000000.0, SANE);
    Trillions();
  }

  lemma Trillions()
    ensures Mul(1000000000000.0, SANE) == 1000000000000000000.0
  {
  }

  // ----- the rebalance

  datatype Proposal = Proposal(
    universe: seq<Sleeve>,
    unbounded: seq<Sleeve>,
    current: Vec,
    unconstrained: Vec,
    unconstrainedTurnover: real,
    turnoverBinding: bool,
    target: Vec,
    deltaW: Vec,
    turnover: real)

  datatype RebalanceResult =
    | Proposed(proposal: Proposal)
    | NoMarketValue
    | Infeasible(cause: QpResult)
    | SumDrift(total: real)

  const DRIFT_TOLERANCE := 0.0001

  /** The optimisation problem over the universe of the book. */
  function ProblemFor(universe: seq<Sleeve>, targets: seq<AllocationTarget>, mu: Sleeve -> real,
                      cov: (Sleeve, Sleeve) -> real, lam: real): (p: Problem)
    ensures |p.mu| == |universe| && Shaped(p)
  {
    var n := |universe|;
    Problem(seq(n, i requires 0 <= i < n => mu(universe[i])),
            seq(n, i requires 0 <= i < n => seq(n, j requires 0 <= j < n => cov(universe[i], universe[j]))),
            Floors(targets, universe), Caps(targets, universe), lam)
  }

  /** Inputs of a real book: bounds inside [0, 1] with floors under caps, and numbers of sane size. */
  ghost predicate SaneProblem(p: Problem, cur: Vec) {
    && Shaped(p) && 0 < |p.mu| <= 6 && 0.0 <= p.lam
    && UnitBounds(p.wMin, p.wMax) && Within(p.mu, SANE) && Within(cur, SANE)
  }

  lemma BoxPointWithinOne(w: Vec, lo: Vec, hi: Vec)
    requires UnitBounds(lo, hi) && InBox(w, lo, hi)
    ensures Within(w, 1.0)
  {
  }

  lemma SolvedMass(p: Problem, cur: Vec, ws: seq<Vec>, taus: seq<real>)
    requires SaneProblem(p, cur) && IsSolverRun(p, ws, taus)
    ensures InBox(ws[|taus|], p.wMin, p.wMax)
    ensures Abs(Total(ws[|taus|]) - 1.0) <= SUM_TOLERANCE + FEASIBILITY_SLACK
  {
    hide Mul, Total, Width, Candidate, ClipAt;
    if |taus| == 0 {
      assert Within(Uniform(|p.mu|), 10000000000000000000.0) by {
        UniformWithin(|p.mu|);
      }
      MassErrorSmall(Uniform(|p.mu|), p.wMin, p.wMax);
    } else {
      var w := ws[|taus| - 1];
      BoxPointWithinOne(w, p.wMin, p.wMax);
      CandidateWithin(p, w);
      MassErrorSmall(Candidate(p, w), p.wMin, p.wMax);
      assert Hits(p, Candidate(p, w), ws[|taus| - 1 + 1]);
    }
  }

  lemma UniformWithin(n: nat)
    requires n > 0
    ensures Within(Uniform(n), 1.0)
  {
  }

  /** The budget-scaled step, projected back to a total of one. */
  method ApplyBudget(p: Problem, cur: Vec, unc: Vec, budget: real) returns (target: Vec, ghost w: Vec, ghost tau: real)
    requires 0 < |cur| == |unc| == |p.wMin| == |p.wMax| && GuardPasses(p)
    requires 0.0 <= budget < L1(unc, cur)
    ensures var v := StepToward(cur, unc, BudgetShare(cur, unc, budget));
            ProjectedTo(p, v, w, tau) && |w| == |cur| && target == QuantizeVec(w, p.wMin, p.wMax)
    ensures |target| == |cur| && (GridBounds(p.wMin, p.wMax) ==> InBox(target, p.wMin, p.wMax))
  {
    var alpha := BudgetShare(cur, unc, budget);
    var step := StepToward(cur, unc, alpha);
    var projected;
    projected, tau := ProjectToOne(p, step);
    w := projected;
    target := QuantizeVec(projected, p.wMin, p.wMax);
    if GridBounds(p.wMin, p.wMax) {
      QuantizeStaysInBox(projected, p.wMin, p.wMax);
    }
  }

  lemma StepWithin(cur: Vec, unc: Vec, alpha: real)
    requires |cur| == |unc| && 0.0 <= alpha <= 1.0 && Within(cur, SANE) && Within(unc, 2.0)
    ensures Within(StepToward(cur, unc, alpha), 10000000000000000000.0)
  {
    hide Mul;
    var v := StepToward(cur, unc, alpha);
    forall i | 0 <= i < |v|
      ensures Abs(v[i]) <= 10000000000000000000.0
    {
      assert Abs(cur[i]) <= SANE && Abs(unc[i]) <= 2.0;
      var d := unc[i] - cur[i];
      ProductAtMost(alpha, d, 1.0, 1000002.0);
      ProductAtMost(alpha, -d, 1.0, 1000002.0);
      MulMinus(alpha, d);
      MulOne(1000002.0);
    }
  }

  lemma ProjectedMass(p: Problem, cur: Vec, unc: Vec, alpha: real, w: Vec, tau: real)
    requires SaneProblem(p, cur) && |cur| == |unc| == |p.mu| && 0.0 <= alpha <= 1.0 && Within(unc, 2.0)
    requires ProjectedTo(p, StepToward(cur, unc, alpha), w, tau)
    ensures InBox(w, p.wMin, p.wMax) && Abs(Total(w) - 1.0) <= SUM_TOLERANCE + FEASIBILITY_SLACK
  {
    hide Total, ClipAt, MassError, StepToward, Within;
    StepWithin(cur, unc, alpha);
    MassErrorSmall(StepToward(cur, unc, alpha), p.wMin, p.wMax);
  }

  lemma QuantizedMass(w: Vec, lo: Vec, hi: Vec)
    requires InBox(w, lo, hi) && UnitBounds(lo, hi) && |w| <= 6
    ensures Abs(Total(QuantizeVec(w, lo, hi)) - Total(w)) <= 0.000003
    ensures L1(QuantizeVec(w, lo, hi), w) <= 0.000003
    ensures Within(QuantizeVec(w, lo, hi), 2.0)
  {
    hide L1, Total, Quantize, Clip;
    QuantizeMoves(w, lo, hi);
    SmallMultiple(|w|);
    forall i | 0 <= i < |w|
      ensures Abs(QuantizeVec(w, lo, hi)[i]) <= 2.0
    {
      assert lo[i] <= w[i] <= hi[i] && 0.0 <= lo[i] && hi[i] <= 1.0;
      ClipInside(w[i], lo[i], hi[i]);
      QuantizeNear(w[i]);
    }
  }

  lemma SmallMultiple(n: nat)
    requires n <= 6
    ensures Times(n, 0.5 / TICKS) <= 0.000003
  {
  }

  /** The turnover cap: the target moves by the budget, up to 1e-5 and to what the box forces on a violating book. */
  ghost predicate TurnoverCapped(p: Problem, cur: Vec, unc: Vec, target: Vec, budget: real)
    requires |cur| == |unc| == |target| == |p.wMin| == |p.wMax| && L1(unc, cur) != 0.0
  {
    Abs(L1(target, cur) - budget) <= 2.0 * RemainingViolation(cur, unc, budget, p.wMin, p.wMax) + 0.00001
  }

  lemma BudgetedTarget(p: Problem, cur: Vec, unc: Vec, budget: real, w: Vec, tau: real)
    requires SaneProblem(p, cur) && |cur| == |unc| == |p.mu|
    requires 0.0 <= budget < L1(unc, cur) && Total(cur) == 1.0 && Abs(Total(unc) - 1.0) <= 0.0000031
    requires Within(unc, 2.0) && ProjectedTo(p, StepToward(cur, unc, BudgetShare(cur, unc, budget)), w, tau)
    ensures |w| == |p.wMin|
    ensures Abs(Total(QuantizeVec(w, p.wMin, p.wMax)) - 1.0) <= 0.0000031
    ensures InBox(unc, p.wMin, p.wMax) ==> TurnoverCapped(p, cur, unc, QuantizeVec(w, p.wMin, p.wMax), budget)
  {
    hide L1, Total, ClipAt, QuantizeVec, Mul, Violation, StepToward, RemainingViolation, SaneProblem, BudgetShare,
         GuardPasses, Times, Within, MassMiss, LoTau, HiTau, InBox, UnitBounds;
    assert IsBox(p.wMin, p.wMax) && |p.mu| <= 6 && |p.mu| == |p.wMin| by {
      SaneParts(p, cur);
    }
    var alpha := BudgetShare(cur, unc, budget);
    var v := StepToward(cur, unc, alpha);
    BudgetedTurnover(cur, unc, budget, p.wMin, p.wMax, tau);
    ProjectedMass(p, cur, unc, alpha, w, tau);
    SaneParts(p, cur);
    QuantizedMass(w, p.wMin, p.wMax);
    StepTotal(cur, unc, alpha);
    ProductAtMost(alpha, Total(unc) - Total(cur), 1.0, 0.0000031);
    ProductAtMost(alpha, Total(cur) - Total(unc), 1.0, 0.0000031);
    MulMinus(alpha, Total(unc) - Total(cur));
    MulOne(0.0000031);
    SmallMultiple(|cur|);
  }

  lemma SaneParts(p: Problem, cur: Vec)
    requires SaneProblem(p, cur)
    ensures Shaped(p) && UnitBounds(p.wMin, p.wMax) && IsBox(p.wMin, p.wMax) && 0 < |p.mu| <= 6
  {
  }

  /** The target is the quantized projection of the budget-scaled step from the current weights toward unc. */
  ghost predicate OnBudgetedStep(p: Problem, cur: Vec, unc: Vec, budget: real, target: Vec, w: Vec, tau: real)
    requires 0 < |cur| == |unc| == |p.wMin| == |p.wMax| && L1(unc, cur) != 0.0
  {
    && ProjectedTo(p, StepToward(cur, unc, BudgetShare(cur, unc, budget)), w, tau)
    && |w| == |cur| && target == QuantizeVec(w, p.wMin, p.wMax)
  }

  method ChooseTarget(p: Problem, cur: Vec, unc: Vec, budget: Option<real>)
    returns (target: Vec, binding: bool, ghost w: Vec, ghost tau: real)
    requires Shaped(p) && 0 < |cur| == |unc| == |p.mu| && GuardPasses(p) && Total(cur) == 1.0
    requires budget.Some? ==> 0.0 <= budget.value
    ensures |target| == |cur|
    ensures binding <==> budget.Some? && L1(unc, cur) > budget.value
    ensures !binding ==> target == unc
    ensures binding ==> OnBudgetedStep(p, cur, unc, budget.value, target, w, tau)
    ensures binding && GridBounds(p.wMin, p.wMax) ==> InBox(target, p.wMin, p.wMax)
    ensures SaneProblem(p, cur) && Abs(Total(unc) - 1.0) <= 0.0000031 && Within(unc, 2.0) ==>
              && Abs(Total(target) - 1.0) <= 0.0000031
              && (binding && InBox(unc, p.wMin, p.wMax) ==> TurnoverCapped(p, cur, unc, target, budget.value))
  {
    hide L1, Total, TurnoverCapped, RemainingViolation, StepToward, SaneProblem, GuardPasses, QuantizeBox, Within,
         BudgetShare, ProjectedTo;
    target, binding, w, tau := unc, false, unc, 0.0;
    if budget.Some? && L1(unc, cur) > budget.value {
      binding := true;
      target, w, tau := ApplyBudget(p, cur, unc, budget.value);
      assert |w| == |cur|;
      if GridBounds(p.wMin, p.wMax) {
        QuantizeStaysInBox(w, p.wMin, p.wMax);
      }
      if SaneProblem(p, cur) && Abs(Total(unc) - 1.0) <= 0.0000031 && Within(unc, 2.0) {
        BudgetedTarget(p, cur, unc, budget.value, w, tau);
      }
    }
  }

  /** The proposal is about this book: its universe, its current weights, and sums taken over them. */
  ghost predicate Describes(q: Proposal, positions: seq<Position>, targets: seq<AllocationTarget>)
    requires MarketValue(positions) > 0.0
  {
    && q.universe == Universe(positions, targets)
    && (forall s :: s in q.unbounded <==> s in q.universe && !Covered(targets, s)) && Ordered(q.unbounded)
    && q.current == CurrentVector(positions, q.universe) && Total(q.current) == 1.0
    && |q.current| == |q.unconstrained| == |q.target| == |q.universe|
    && q.deltaW == Sub(q.target, q.current) && q.turnover == L1(q.target, q.current)
    && q.unconstrainedTurnover == L1(q.unconstrained, q.current)
  }

  /** What the caller may rely on: the sum, the box, the turnover budget. */
  ghost predicate Safe(q: Proposal, p: Problem, budget: Option<real>)
    requires |q.current| == |q.unconstrained| == |q.target| == |p.wMin| == |p.wMax|
    requires q.unconstrainedTurnover == L1(q.unconstrained, q.current)
    requires budget.Some? ==> 0.0 <= budget.value
  {
    && Abs(Total(q.target) - 1.0) <= DRIFT_TOLERANCE
    && (q.turnoverBinding <==> budget.Some? && q.unconstrainedTurnover > budget.value)
    && (!q.turnoverBinding ==> q.target == q.unconstrained)
    && (GridBounds(p.wMin, p.wMax) ==> InBox(q.target, p.wMin, p.wMax) && InBox(q.unconstrained, p.wMin, p.wMax))
    && (q.turnoverBinding && SaneProblem(p, q.current) && GridBounds(p.wMin, p.wMax) ==>
          TurnoverCapped(p, q.current, q.unconstrained, q.target, budget.value))
  }

  /** A run of the solver that stopped where it should, and the quantized vector it ended at. */
  ghost predicate SolvesTo(p: Problem, tol: real, maxIters: nat, ws: seq<Vec>, taus: seq<real>, unc: Vec)
    requires Shaped(p) && |p.mu| > 0
  {
    && IsSolverRun(p, ws, taus) && StoppedRight(ws, tol, maxIters)
    && |ws[|taus|]| == |p.mu| && unc == QuantizeVec(ws[|taus|], p.wMin, p.wMax)
  }

  /** How a proposal came about: the solver's run and, when the budget binds, the projection of the scaled step. */
  datatype Trace = Trace(ws: seq<Vec>, taus: seq<real>, w: Vec, tau: real)

  /** The unconstrained target is the solver's answer; a binding target lies on the budgeted step toward it. */
  ghost predicate Optimized(q: Proposal, p: Problem, budget: Option<real>, tol: real, maxIters: nat, t: Trace)
    requires Shaped(p) && |p.mu| == |q.current| == |q.unconstrained|
  {
    && |p.mu| > 0 && SolvesTo(p, tol, maxIters, t.ws, t.taus, q.unconstrained)
    && (q.turnoverBinding ==>
          && budget.Some? && L1(q.unconstrained, q.current) != 0.0
          && OnBudgetedStep(p, q.current, q.unconstrained, budget.value, q.target, t.w, t.tau))
  }

  method CurrentWeightVector(positions: seq<Position>, targets: seq<AllocationTarget>) returns (r: Option<Vec>)
    ensures r.None? <==> MarketValue(positions) <= 0.0
    ensures r.Some? ==>
              && r.value == CurrentVector(positions, Universe(positions, targets))
              && Total(r.value) == 1.0 && |r.value| > 0
  {
    var weights := CurrentWeights(positions);
    if weights.None? {
      return None;
    }
    hide Total, Select, Weight, MarketValue;
    var universe := Universe(positions, targets);
    CurrentWeightsSumToOne(positions, targets);
    var current := seq(|universe|, i requires 0 <= i < |universe| =>
                         if universe[i] in weights.value then weights.value[universe[i]] else 0.0);
    UnheldWeightIsZero(positions);
    assert current == CurrentVector(positions, universe);
    r := Some(current);
  }

  /** Which sum makes the box and the total of one incompatible; the floors are looked at first. */
  function Refusal(p: Problem): QpResult {
    if Total(p.wMin) > 1.0 + FEASIBILITY_SLACK then FloorsTooHigh(Total(p.wMin)) else CapsTooLow(Total(p.wMax))
  }

  method SolveQuantized(p: Problem, ghost cur: Vec, tol: real, maxIters: nat)
    returns (r: QpResult, unc: Vec, ghost ws: seq<Vec>, ghost taus: seq<real>)
    requires Shaped(p) && |p.mu| > 0
    ensures r.Solved? <==> GuardPasses(p)
    ensures !r.Solved? ==> r == Refusal(p)
    ensures r.Solved? ==>
              && |unc| == |p.mu| && SolvesTo(p, tol, maxIters, ws, taus, unc)
              && (GridBounds(p.wMin, p.wMax) ==> InBox(unc, p.wMin, p.wMax))
              && (SaneProblem(p, cur) ==> Abs(Total(unc) - 1.0) <= 0.0000031 && Within(unc, 2.0))
  {
    hide Total, GuardPasses, IsSolverRun, StoppedRight, SaneProblem, QuantizeBox, Within;
    r, ws, taus := SolveQp(p, tol, maxIters);
    unc := [];
    if r.Solved? {
      SolverRunLengths(p, ws, taus);
      unc := QuantizeVec(r.w, p.wMin, p.wMax);
      if GridBounds(p.wMin, p.wMax) {
        QuantizeStaysInBox(r.w, p.wMin, p.wMax);
      }
      if SaneProblem(p, cur) {
        UnconstrainedMass(p, cur, ws, taus);
      }
    }
  }

  method RunMvRebalance(positions: seq<Position>, targets: seq<AllocationTarget>, budget: Option<real>,
                        mu: Sleeve -> real, cov: (Sleeve, Sleeve) -> real, lam: real, tol: real, maxIters: nat)
    returns (r: RebalanceResult, ghost trace: Trace)
    requires budget.Some? ==> 0.0 <= budget.value
    ensures var p := ProblemFor(Universe(positions, targets), targets, mu, cov, lam);
            && (r.NoMarketValue? <==> MarketValue(positions) <= 0.0)
            && (r.Infeasible? <==> MarketValue(positions) > 0.0 && !GuardPasses(p))
            && (r.Infeasible? ==> r.cause == Refusal(p))
            && (r.SumDrift? ==>
                  MarketValue(positions) > 0.0
                      && !SaneProblem(p, CurrentVector(positions, Universe(positions, targets))))
            && (r.Proposed? ==>
                  && MarketValue(positions) > 0.0
                  && Describes(r.proposal, positions, targets) && Safe(r.proposal, p, budget))
    ensures r.Proposed? ==>
              var p := ProblemFor(Universe(positions, targets), targets, mu, cov, lam);
              Optimized(r.proposal, p, budget, tol, maxIters, trace)
  {
    hide Total, L1, Mul, GuardPasses, SaneProblem, Select, Within, TurnoverCapped, CurrentVector, InBox, SolvesTo,
         OnBudgetedStep;
    trace := Trace([], [], [], 0.0);
    var weights := CurrentWeightVector(positions, targets);
    if weights.None? {
      return NoMarketValue, trace;
    }
    var universe := Universe(positions, targets);
    SelectOrdered(SLEEVES, positions, targets);
    var wMin, wMax, unbounded := AssembleBounds(universe, targets);
    var p := ProblemFor(universe, targets, mu, cov, lam);
    var current := weights.value;
    var solved, unconstrained, ws, taus := SolveQuantized(p, current, tol, maxIters);
    if !solved.Solved? {
      return Infeasible(solved), trace;
    }
    var target, binding, w, tau := ChooseTarget(p, current, unconstrained, budget);
    trace := Trace(ws, taus, w, tau);
    var total := Total(target);
    if Abs(total - 1.0) > DRIFT_TOLERANCE {
      return SumDrift(total), trace;
    }
    r := Proposed(Proposal(universe, unbounded, current, unconstrained, L1(unconstrained, current), binding,
                           target, Sub(target, current), L1(target, current)));
  }

  lemma SolverRunLengths(p: Problem, ws: seq<Vec>, taus: seq<real>)
    requires Shaped(p) && |p.mu| > 0 && IsSolverRun(p, ws, taus)
    ensures |ws| == |taus| + 1 && |ws[|taus|]| == |p.mu|
  {
  }

  lemma UnconstrainedMass(p: Problem, cur: Vec, ws: seq<Vec>, taus: seq<real>)
    requires SaneProblem(p, cur) && IsSolverRun(p, ws, taus)
    ensures |ws| == |taus| + 1 && |ws[|taus|]| == |p.wMin|
    ensures var q := QuantizeVec(ws[|taus|], p.wMin, p.wMax);
            Abs(Total(q) - 1.0) <= 0.0000031 && Within(q, 2.0)
  {
    hide Total, QuantizeVec, IsSolverRun, SaneProblem, Within, InBox;
    SaneParts(p, cur);
    SolverRunLengths(p, ws, taus);
    SolvedMass(p, cur, ws, taus);
    QuantizedMass(ws[|taus|], p.wMin, p.wMax);
  }

  lemma UnheldWeightIsZero(positions: seq<Position>)
    requires MarketValue(positions) > 0.0
    ensures forall s :: !Held(positions, s) ==> Weight(positions, s) == 0.0
  {
    UnheldIsZero(positions);
    hide SleeveValue, MarketValue;
  }

  /** Sleeves that hold nothing marked have no value. */
  lemma UnheldIsZero(positions: seq<Position>)
    ensures forall s :: !Held(positions, s) ==> SleeveValue(positions, s) == 0.0
  {
    if |positions| == 0 {
    } else {
      var k := |positions| - 1;
      assert positions[..k + 1] == positions;
      HeldStep(positions, k);
      UnheldIsZero(positions[..k]);
    }
  }
}
