/** What a rebalance proposal says about the positions, targets and priors it was given (rebalance.py). */
module RebalanceOnInputs {
  import opened Vectors
  import opened CappedSimplex
  import opened QpSolver
  import opened SolverBounds
  import opened SolverQuality
  import opened Rounding
  import opened Turnover
  import opened Wrappers
  import opened Sleeves
  import opened Rebalance

  // ----- bounds, on the targets

  /** The target that counts for a sleeve: the last one given for it. */
  predicate Counts(targets: seq<AllocationTarget>, k: int, s: Sleeve) {
    && 0 <= k < |targets| && targets[k].assetClass == s
    && forall j :: k < j < |targets| ==> targets[j].assetClass != s
  }

  predicate Targeted(targets: seq<AllocationTarget>, s: Sleeve) {
    exists j :: 0 <= j < |targets| && targets[j].assetClass == s
  }

  lemma {:induction false} LastTarget(targets: seq<AllocationTarget>, k: int, s: Sleeve)
    requires Counts(targets, k, s)
    ensures TargetFor(targets, s) == Some(targets[k])
  {
    if k < |targets| - 1 {
      LastTarget(targets[..|targets| - 1], k, s);
    }
  }

  lemma {:induction false} CoveredIff(targets: seq<AllocationTarget>, s: Sleeve)
    ensures Covered(targets, s) <==> Targeted(targets, s)
  {
    if |targets| > 0 {
      var n := |targets| - 1;
      CoveredIff(targets[..n], s);
      if targets[n].assetClass != s {
        assert forall j :: 0 <= j < n ==> targets[..n][j] == targets[j];
        if Covered(targets[..n], s) {
          var j :| 0 <= j < n && targets[..n][j].assetClass == s;
          assert targets[j].assetClass == s;
        }
        if j :| 0 <= j < |targets| && targets[j].assetClass == s {
          assert targets[..n][j].assetClass == s;
        }
      }
    }
  }

  lemma {:induction false} SomeCounts(targets: seq<AllocationTarget>, s: Sleeve) returns (k: int)
    requires Targeted(targets, s)
    ensures Counts(targets, k, s)
  {
    var n := |targets| - 1;
    if targets[n].assetClass == s {
      k := n;
    } else {
      var j :| 0 <= j < |targets| && targets[j].assetClass == s;
      assert targets[..n][j].assetClass == s;
      k := SomeCounts(targets[..n], s);
      assert forall i :: 0 <= i < n ==> targets[..n][i] == targets[i];
    }
  }

  /** The vectors hold each sleeve's own floor and cap: those of its last target, or 0 and 1 without one. */
  ghost predicate AreBounds(wMin: Vec, wMax: Vec, universe: seq<Sleeve>, targets: seq<AllocationTarget>) {
    && |wMin| == |wMax| == |universe|
    && (forall i, k :: 0 <= i < |universe| && Counts(targets, k, universe[i]) ==>
          wMin[i] == targets[k].minWeight && wMax[i] == targets[k].maxWeight)
    && (forall i :: 0 <= i < |universe| && !Targeted(targets, universe[i]) ==> wMin[i] == 0.0 && wMax[i] == 1.0)
  }

  lemma AssembledAreBounds(universe: seq<Sleeve>, targets: seq<AllocationTarget>)
    ensures AreBounds(Floors(targets, universe), Caps(targets, universe), universe, targets)
  {
    forall i, k | 0 <= i < |universe| && Counts(targets, k, universe[i])
      ensures Floors(targets, universe)[i] == targets[k].minWeight && Caps(targets, universe)[i] == targets[k].maxWeight
    {
      LastTarget(targets, k, universe[i]);
    }
    forall i | 0 <= i < |universe| && !Targeted(targets, universe[i])
      ensures Floors(targets, universe)[i] == 0.0 && Caps(targets, universe)[i] == 1.0
    {
      CoveredIff(targets, universe[i]);
    }
  }

  /** The assembled bounds are exactly those. */
  lemma BoundsOnTargets(universe: seq<Sleeve>, targets: seq<AllocationTarget>, wMin: Vec, wMax: Vec)
    ensures AreBounds(wMin, wMax, universe, targets)
       <==> wMin == Floors(targets, universe) && wMax == Caps(targets, universe)
  {
    AssembledAreBounds(universe, targets);
    var lo, hi := Floors(targets, universe), Caps(targets, universe);
    hide Floors, Caps, Counts, Targeted;
    if AreBounds(wMin, wMax, universe, targets) {
      forall i | 0 <= i < |universe|
        ensures wMin[i] == lo[i] && wMax[i] == hi[i]
      {
        if Targeted(targets, universe[i]) {
          var k := SomeCounts(targets, universe[i]);
        }
      }
      assert wMin == lo && wMax == hi;
    }
  }

  /** A book with market value is refused exactly when its own floors sum to more than one or its own caps to less. */
  lemma InfeasibleOnTargets(positions: seq<Position>, targets: seq<AllocationTarget>, mu: Sleeve -> real,
                            cov: (Sleeve, Sleeve) -> real, lam: real, wMin: Vec, wMax: Vec)
    requires AreBounds(wMin, wMax, Universe(positions, targets), targets)
    ensures var p := ProblemFor(Universe(positions, targets), targets, mu, cov, lam);
            && (GuardPasses(p) <==> Total(wMin) <= 1.000000001 && Total(wMax) >= 0.999999999)
            && (Total(wMin) > 1.000000001 ==> Refusal(p) == FloorsTooHigh(Total(wMin)))
            && (Total(wMin) <= 1.000000001 && Total(wMax) < 0.999999999 ==> Refusal(p) == CapsTooLow(Total(wMax)))
  {
    hide Total;
    BoundsOnTargets(Universe(positions, targets), targets, wMin, wMax);
  }

  // ----- the book

  /** The priced values of the positions that the filter picks, zero elsewhere. */
  predicate AreValues(v: Vec, positions: seq<Position>, picked: Sleeve -> bool) {
    |v| == |positions| && forall i :: 0 <= i < |positions| ==>
      v[i] == match positions[i].marketValue
              case None => 0.0
              case Some(x) => if picked(positions[i].sleeve) then x else 0.0
  }

  lemma {:induction false} MarketValueOnInputs(positions: seq<Position>, v: Vec)
    requires AreValues(v, positions, _ => true)
    ensures MarketValue(positions) == Total(v)
  {
    if |positions| > 0 {
      var n := |positions| - 1;
      MarketValueOnInputs(positions[..n], v[..n]);
      assert v == v[..n] + [v[n]];
      TotalAppend(v[..n], v[n]);
    }
  }

  lemma {:induction false} SleeveValueOnInputs(positions: seq<Position>, s: Sleeve, v: Vec)
    requires AreValues(v, positions, x => x == s)
    ensures SleeveValue(positions, s) == Total(v)
  {
    if |positions| > 0 {
      var n := |positions| - 1;
      SleeveValueOnInputs(positions[..n], s, v[..n]);
      assert v == v[..n] + [v[n]];
      TotalAppend(v[..n], v[n]);
    }
  }

  /** A weight times the value of the book is the value of the sleeve. */
  lemma WeightOnInputs(positions: seq<Position>, s: Sleeve, all: Vec, own: Vec)
    requires AreValues(all, positions, _ => true) && AreValues(own, positions, x => x == s) && Total(all) > 0.0
    ensures MarketValue(positions) > 0.0 && Mul(Total(all), Weight(positions, s)) == Total(own)
  {
    hide Mul, Div, Total, MarketValue, SleeveValue;
    MarketValueOnInputs(positions, all);
    SleeveValueOnInputs(positions, s, own);
    DivFacts(SleeveValue(positions, s), 0.0, MarketValue(positions));
  }

  predicate Priced(positions: seq<Position>, s: Sleeve) {
    exists i :: 0 <= i < |positions| && positions[i].sleeve == s && positions[i].marketValue != None
  }

  /** The universe: the sleeves priced or targeted, each once, in canonical order. */
  lemma UniverseOnInputs(positions: seq<Position>, targets: seq<AllocationTarget>)
    ensures Ordered(Universe(positions, targets))
    ensures forall s :: s in Universe(positions, targets) <==> Priced(positions, s) || Targeted(targets, s)
  {
    hide Select;
    SelectOrdered(SLEEVES, positions, targets);
    forall s
      ensures s in Universe(positions, targets) <==> Priced(positions, s) || Targeted(targets, s)
    {
      CoveredIff(targets, s);
      SleeveListed(s);
      assert Held(positions, s) <==> Priced(positions, s);
    }
  }

  /** What the solver is given: the priors of the sleeves, in the order of the universe. */
  lemma ProblemOnInputs(universe: seq<Sleeve>, targets: seq<AllocationTarget>, mu: Sleeve -> real,
                        cov: (Sleeve, Sleeve) -> real, lam: real)
    ensures var p := ProblemFor(universe, targets, mu, cov, lam);
            && p.lam == lam && |p.mu| == |p.sigma| == |universe|
            && (forall i :: 0 <= i < |universe| ==> p.mu[i] == mu(universe[i]) && |p.sigma[i]| == |universe|)
            && (forall i, j :: 0 <= i < |universe| && 0 <= j < |universe| ==>
                  p.sigma[i][j] == cov(universe[i], universe[j]))
            && AreBounds(p.wMin, p.wMax, universe, targets)
  {
    BoundsOnTargets(universe, targets, Floors(targets, universe), Caps(targets, universe));
  }

  // ----- the proposal

  predicate AreMoves(moves: Vec, x: Vec, y: Vec) {
    |moves| == |x| == |y| && forall i :: 0 <= i < |x| ==>
      moves[i] == if x[i] >= y[i] then x[i] - y[i] else y[i] - x[i]
  }

  lemma {:induction false} L1OnInputs(x: Vec, y: Vec, moves: Vec)
    requires AreMoves(moves, x, y)
    ensures L1(x, y) == Total(moves)
  {
    if |x| > 0 {
      L1OnInputs(x[1..], y[1..], moves[1..]);
    }
  }

  /** The proposal is about this book: universe, flags, weights, trades and both turnovers. */
  lemma ProposalOnInputs(q: Proposal, positions: seq<Position>, targets: seq<AllocationTarget>, p: Problem,
                         budget: Option<real>, all: Vec, moves: Vec, steps: Vec)
    requires MarketValue(positions) > 0.0 && (budget.Some? ==> 0.0 <= budget.value)
    requires Describes(q, positions, targets) && |p.wMin| == |p.wMax| == |q.universe| && Safe(q, p, budget)
    requires AreValues(all, positions, _ => true)
    requires AreMoves(moves, q.target, q.current) && AreMoves(steps, q.unconstrained, q.current)
    ensures Ordered(q.universe) && Ordered(q.unbounded)
    ensures forall s :: s in q.universe <==> Priced(positions, s) || Targeted(targets, s)
    ensures forall s :: s in q.unbounded <==> Priced(positions, s) && !Targeted(targets, s)
    ensures forall i, own :: 0 <= i < |q.universe| && AreValues(own, positions, x => x == q.universe[i]) ==>
              Mul(Total(all), q.current[i]) == Total(own)
    ensures forall i :: 0 <= i < |q.universe| ==> q.deltaW[i] == q.target[i] - q.current[i]
    ensures q.turnover == Total(moves) && q.unconstrainedTurnover == Total(steps)
    ensures q.turnoverBinding <==> budget.Some? && Total(steps) > budget.value
    ensures !q.turnoverBinding ==> q.target == q.unconstrained
    ensures 0.9999 <= Total(q.target) <= 1.0001
  {
    hide Mul, Total, MarketValue, Weight, L1, InBox, TurnoverCapped, Select;
    MarketValueOnInputs(positions, all);
    UniverseOnInputs(positions, targets);
    forall s
      ensures s in q.unbounded <==> Priced(positions, s) && !Targeted(targets, s)
    {
      CoveredIff(targets, s);
    }
    forall i, own | 0 <= i < |q.universe| && AreValues(own, positions, x => x == q.universe[i])
      ensures Mul(Total(all), q.current[i]) == Total(own)
    {
      WeightOnInputs(positions, q.universe[i], all, own);
    }
    L1OnInputs(q.target, q.current, moves);
    L1OnInputs(q.unconstrained, q.current, steps);
  }

  /** Targets a policy can state: floors under caps, both to six decimals. */
  ghost predicate Decimal(targets: seq<AllocationTarget>) {
    forall k :: 0 <= k < |targets| ==>
      && targets[k].minWeight <= targets[k].maxWeight
      && (targets[k].minWeight * 1000000.0).Floor as real == targets[k].minWeight * 1000000.0
      && (targets[k].maxWeight * 1000000.0).Floor as real == targets[k].maxWeight * 1000000.0
  }

  lemma OnGridByInteger(x: real, a: int)
    requires x * 1000000.0 == a as real
    ensures OnGrid(x)
  {
    assert x == Tick(a);
  }

  lemma DecimalIsGrid(universe: seq<Sleeve>, targets: seq<AllocationTarget>, wMin: Vec, wMax: Vec)
    requires Decimal(targets) && AreBounds(wMin, wMax, universe, targets)
    ensures GridBounds(wMin, wMax)
  {
    OnGridByInteger(0.0, 0);
    OnGridByInteger(1.0, 1000000);
    hide OnGrid;
    forall i | 0 <= i < |universe|
      ensures OnGrid(wMin[i]) && OnGrid(wMax[i]) && wMin[i] <= wMax[i]
    {
      if Targeted(targets, universe[i]) {
        var k := SomeCounts(targets, universe[i]);
        OnGridByInteger(targets[k].minWeight, (targets[k].minWeight * 1000000.0).Floor);
        OnGridByInteger(targets[k].maxWeight, (targets[k].maxWeight * 1000000.0).Floor);
      }
    }
  }

  /** Every target of the policy is met by the proposal, and a sleeve without one stays in [0, 1]. */
  lemma TargetsMet(q: Proposal, positions: seq<Position>, targets: seq<AllocationTarget>, p: Problem,
                   budget: Option<real>)
    requires MarketValue(positions) > 0.0 && (budget.Some? ==> 0.0 <= budget.value) && Decimal(targets)
    requires Describes(q, positions, targets) && AreBounds(p.wMin, p.wMax, q.universe, targets) && Safe(q, p, budget)
    ensures forall i, k :: 0 <= i < |q.universe| && Counts(targets, k, q.universe[i]) ==>
              && targets[k].minWeight <= q.target[i] <= targets[k].maxWeight
              && targets[k].minWeight <= q.unconstrained[i] <= targets[k].maxWeight
    ensures forall i :: 0 <= i < |q.universe| && !Targeted(targets, q.universe[i]) ==> 0.0 <= q.target[i] <= 1.0
  {
    hide Total, L1, TurnoverCapped, Counts, Targeted, GridBounds, MarketValue, CurrentVector, Select;
    DecimalIsGrid(q.universe, targets, p.wMin, p.wMax);
  }

  /** From current weights inside the policy, a binding budget is met up to 1e-5. */
  lemma BudgetMet(q: Proposal, p: Problem, budget: Option<real>)
    requires |q.current| == |q.unconstrained| == |q.target| == |p.wMin| == |p.wMax|
    requires q.unconstrainedTurnover == L1(q.unconstrained, q.current) && q.turnover == L1(q.target, q.current)
    requires (budget.Some? ==> 0.0 <= budget.value) && Safe(q, p, budget) && q.turnoverBinding
    requires SaneProblem(p, q.current) && GridBounds(p.wMin, p.wMax) && InBox(q.current, p.wMin, p.wMax)
    ensures budget.value - 0.00001 <= q.turnover <= budget.value + 0.00001
  {
    hide Mul, Total, L1, GridBounds, SaneProblem, InBox, BudgetShare, ClipAt;
    NoViolationInBox(q.current, p.wMin, p.wMax);
    L1Zero(q.current, ClipAt(q.current, p.wMin, p.wMax, 0.0));
    MulZero(1.0 - BudgetShare(q.current, q.unconstrained, budget.value));
  }

  /** The budgeted step moves each weight in the proportion of the budget to the unconstrained turnover. */
  lemma StepOnInputs(cur: Vec, unc: Vec, budget: real, i: nat, steps: Vec)
    requires i < |cur| == |unc| && AreMoves(steps, unc, cur) && Total(steps) > 0.0
    ensures L1(unc, cur) != 0.0
    ensures var v := StepToward(cur, unc, BudgetShare(cur, unc, budget));
            Mul(Total(steps), v[i] - cur[i]) == Mul(budget, unc[i] - cur[i])
  {
    hide Mul, Total, L1;
    L1OnInputs(unc, cur, steps);
    var d := unc[i] - cur[i];
    ShareTimes(budget, L1(unc, cur), d);
  }

  lemma ShareTimes(x: real, y: real, d: real)
    requires y != 0.0
    ensures Mul(y, Mul(x / y, d)) == Mul(x, d)
  {
    var q := x / y;
    assert q * y == x;
    assert y * (q * d) == (q * y) * d;
  }

  /** The unconstrained target is the solver's answer to half a quantum, and that answer is near the best. */
  lemma ProposalNearBest(q: Proposal, p: Problem, budget: Option<real>, tol: real, maxIters: nat, t: Trace, u: Vec,
                         mags: Matrix, rho: real, m: real, b: real, miss: real)
    requires Regular(p) && PositiveSemidefinite(Cov(p), |p.mu|) && |p.mu| == |q.current| == |q.unconstrained|
    requires Optimized(q, p, budget, tol, maxIters, t) && StoppedByTest(t.ws, t.taus, tol) && 0.0 <= tol
    requires InBox(u, p.wMin, p.wMax) && Total(u) == 1.0
    requires AreMagnitudes(mags, p.sigma) && forall i :: 0 <= i < |p.sigma| ==> Total(mags[i]) <= rho
    requires Bounded(p, m, b) && MissAtMost(|p.mu|, m, b, miss)
    ensures exists w: Vec :: InBox(w, p.wMin, p.wMax)
              && (forall i :: 0 <= i < |w| ==> -0.0000005 <= q.unconstrained[i] - w[i] <= 0.0000005)
              && Objective(p, u) - Objective(p, w)
                   <= Mul(Max(1.0, Mul(p.lam, rho)),
                          Mul(tol, Total(p.wMax) - Total(p.wMin)) + Mul(1.0 + 3.0 * b + m, miss))
  {
    hide Mul, Total, Objective, IsSolverRun, StoppedByTest, StoppedRight, MissAtMost, AreMagnitudes,
         PositiveSemidefinite, Bounded, QuantizeVec, OnBudgetedStep, Regular, InBox, IsRun;
    RegularBox(p);
    SolverRunLengths(p, t.ws, t.taus);
    var w := t.ws[|t.taus|];
    AnswerNearBest(p, t.ws, t.taus, tol, u, mags, rho, m, b, miss);
    RunBasics(p, t.ws, t.taus);
    RunStaysInBox(p, t.ws, t.taus, |t.taus|);
    QuantizedNear(w, p.wMin, p.wMax);
  }

  lemma QuantizedNear(w: Vec, lo: Vec, hi: Vec)
    requires InBox(w, lo, hi)
    ensures forall i :: 0 <= i < |w| ==> -0.0000005 <= QuantizeVec(w, lo, hi)[i] - w[i] <= 0.0000005
  {
    hide Quantize, Clip;
    forall i | 0 <= i < |w|
      ensures -0.0000005 <= QuantizeVec(w, lo, hi)[i] - w[i] <= 0.0000005
    {
      ClipInside(w[i], lo[i], hi[i]);
      var n := SixDecimals(w[i]);
    }
  }
}
