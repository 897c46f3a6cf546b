/** The tax-loss harvest planners and their wash-sale guard (constraints.py, heuristics.py, mip.py). */
module Harvest {
  import opened Vectors
  import opened Wrappers
  import opened WashChains
  import opened Sleeves
  import Rebalance

  datatype LotPosition = LotPosition(
    lotId: string,
    accountId: string,
    securityId: string,
    sleeve: Sleeve,
    quantity: real,
    costBasisPerShare: real,
    marketValue: Option<real>,
    unrealizedGain: Option<real>,
    acquisitionDate: int,
    isRestricted: bool,
    substituteGroup: Option<string>)

  /** Everything a planner is given: the lots, the policy, the tax rates and the trade date. */
  datatype Book = Book(
    positions: seq<LotPosition>,
    restricted: set<string>,
    targets: seq<Rebalance.AllocationTarget>,
    stcgRate: real,
    ltcgRate: real,
    asOf: int)

  datatype Tag =
    | DoNotSellLot(lotId: string)
    | RestrictedSecurity(securityId: string)
    | WashSale(lotId: string, otherId: string)
    | IpsMax(sleeve: Sleeve)
    | IpsMin(sleeve: Sleeve)
    | NoAction
    | NoFeasibleLots

  datatype Trade = Trade(lotId: string, securityId: string, accountId: string, quantity: real)

  datatype PlanResult =
    | Planned(trades: seq<Trade>, taxDelta: real, binding: set<Tag>)
    | NoMarketValue

  // ----- constraints

  function SellBlocks(lot: LotPosition, book: Book): set<Tag> {
    if lot.isRestricted then {DoNotSellLot(lot.lotId)}
    else if lot.securityId in book.restricted then {RestrictedSecurity(lot.securityId)}
    else {}
  }

  /** other would wash a loss taken on lot at the date. */
  predicate Triggers(lot: LotPosition, other: LotPosition, asOf: int, window: int) {
    && other.lotId != lot.lotId
    && SubstantiallyIdentical(lot.securityId, other.securityId, lot.substituteGroup, other.substituteGroup)
    && WithinWindow(other.acquisitionDate, asOf, window)
  }

  function WashTriggers(lot: LotPosition, positions: seq<LotPosition>, asOf: int, window: int): seq<Tag> {
    if |positions| == 0 then []
    else
      var last := positions[|positions| - 1];
      WashTriggers(lot, positions[..|positions| - 1], asOf, window)
        + if Triggers(lot, last, asOf, window) then [WashSale(lot.lotId, last.lotId)] else []
  }

  method EvaluateWashSaleRisk(lot: LotPosition, positions: seq<LotPosition>, asOf: int, window: int)
    returns (triggers: seq<Tag>)
    ensures triggers == WashTriggers(lot, positions, asOf, window)
  {
    triggers := [];
    for k := 0 to |positions|
      invariant triggers == WashTriggers(lot, positions[..k], asOf, window)
    {
      assert positions[..k + 1][..k] == positions[..k];
      if Triggers(lot, positions[k], asOf, window) {
        triggers := triggers + [WashSale(lot.lotId, positions[k].lotId)];
      }
    }
    assert positions[..|positions|] == positions;
  }

  lemma {:induction false} ClearIffNoTrigger(lot: LotPosition, positions: seq<LotPosition>, asOf: int, window: int)
    ensures WashTriggers(lot, positions, asOf, window) == []
            <==> forall i :: 0 <= i < |positions| ==> !Triggers(lot, positions[i], asOf, window)
  {
    if |positions| > 0 {
      ClearIffNoTrigger(lot, positions[..|positions| - 1], asOf, window);
      assert forall i :: 0 <= i < |positions| - 1 ==> positions[..|positions| - 1][i] == positions[i];
    }
  }

  // ----- what is worth selling

  function Rate(acquired: int, book: Book): real {
    if book.asOf - acquired >= 365 then book.ltcgRate else book.stcgRate
  }

  predicate IsLoss(lot: LotPosition) {
    lot.unrealizedGain.Some? && lot.unrealizedGain.value < 0.0
  }

  /** The filter both planners apply. */
  predicate Harvestable(lot: LotPosition, book: Book) {
    && IsLoss(lot) && lot.marketValue.Some? && SellBlocks(lot, book) == {}
    && WashTriggers(lot, book.positions, book.asOf, WASH_SALE_WINDOW_DAYS) == []
  }

  /** The tax effect of realizing the lot; negative for a loss. */
  function HarvestTax(lot: LotPosition, book: Book): real {
    Mul(lot.unrealizedGain.GetOr(0.0), Rate(lot.acquisitionDate, book))
  }

  /** Tax benefit per dollar of market value. */
  function Score(lot: LotPosition, book: Book): real {
    var mv := lot.marketValue.GetOr(0.0);
    if mv > 0.0 then Div(Abs(HarvestTax(lot, book)), mv) else 0.0
  }

  function TradeOf(lot: LotPosition): Trade {
    Trade(lot.lotId, lot.securityId, lot.accountId, lot.quantity)
  }

  function Trades(lots: seq<LotPosition>): (t: seq<Trade>)
    ensures |t| == |lots|
  {
    seq(|lots|, i requires 0 <= i < |lots| => TradeOf(lots[i]))
  }

  function Sum(lots: seq<LotPosition>, f: LotPosition -> real): real {
    if |lots| == 0 then 0.0 else Sum(lots[..|lots| - 1], f) + f(lots[|lots| - 1])
  }

  function TotalTax(lots: seq<LotPosition>, book: Book): real {
    Sum(lots, l => HarvestTax(l, book))
  }

  function TotalScore(lots: seq<LotPosition>, book: Book): real {
    Sum(lots, l => Score(l, book))
  }

  function Losses(lots: seq<LotPosition>): seq<LotPosition> {
    if |lots| == 0 then []
    else Losses(lots[..|lots| - 1]) + if IsLoss(lots[|lots| - 1]) then [lots[|lots| - 1]] else []
  }

  function Keep(lots: seq<LotPosition>, book: Book): seq<LotPosition> {
    if |lots| == 0 then []
    else Keep(lots[..|lots| - 1], book) + if Harvestable(lots[|lots| - 1], book) then [lots[|lots| - 1]] else []
  }

  function MarketValue(book: Book): real {
    Rebalance.MarketValue(Valued(book.positions))
  }

  function Valued(lots: seq<LotPosition>): seq<Rebalance.Position> {
    seq(|lots|, i requires 0 <= i < |lots| => Rebalance.Position(lots[i].sleeve, lots[i].marketValue))
  }

  /** Python's stable sort by an ascending key. */
  function SortBy(lots: seq<LotPosition>, key: LotPosition -> real): (s: seq<LotPosition>)
    ensures |s| == |lots|
  {
    if |lots| == 0 then [] else Insert(SortBy(lots[..|lots| - 1], key), lots[|lots| - 1], key)
  }

  /** Insert behind every element whose key is not larger. */
  function Insert(s: seq<LotPosition>, x: LotPosition, key: LotPosition -> real): (r: seq<LotPosition>)
    ensures |r| == |s| + 1
  {
    if |s| == 0 || key(s[|s| - 1]) <= key(x) then s + [x]
    else Insert(s[..|s| - 1], x, key) + [s[|s| - 1]]
  }

  predicate Sorted(s: seq<LotPosition>, key: LotPosition -> real) {
    forall i, j :: 0 <= i < j < |s| ==> key(s[i]) <= key(s[j])
  }

  lemma {:induction false} InsertMultiset(s: seq<LotPosition>, x: LotPosition, key: LotPosition -> real)
    ensures multiset(Insert(s, x, key)) == multiset(s) + multiset{x}
  {
    if |s| > 0 && key(s[|s| - 1]) > key(x) {
      InsertMultiset(s[..|s| - 1], x, key);
      assert s == s[..|s| - 1] + [s[|s| - 1]];
    }
  }

  lemma InsertElement(s: seq<LotPosition>, x: LotPosition, key: LotPosition -> real, i: nat)
    requires i < |Insert(s, x, key)|
    ensures Insert(s, x, key)[i] == x || Insert(s, x, key)[i] in s
  {
  }

  lemma {:induction false} InsertSorted(s: seq<LotPosition>, x: LotPosition, key: LotPosition -> real)
    requires Sorted(s, key)
    ensures Sorted(Insert(s, x, key), key)
  {
    var n := |s| - 1;
    if |s| > 0 && key(s[n]) > key(x) {
      InsertSorted(s[..n], x, key);
      var r := Insert(s[..n], x, key);
      forall i | 0 <= i < |r|
        ensures key(r[i]) <= key(s[n])
      {
        InsertElement(s[..n], x, key, i);
      }
    }
  }

  /** Sorting permutes and orders. */
  lemma {:induction false} SortFacts(lots: seq<LotPosition>, key: LotPosition -> real)
    ensures multiset(SortBy(lots, key)) == multiset(lots) && Sorted(SortBy(lots, key), key)
  {
    if |lots| > 0 {
      var n := |lots| - 1;
      SortFacts(lots[..n], key);
      InsertMultiset(SortBy(lots[..n], key), lots[n], key);
      InsertSorted(SortBy(lots[..n], key), lots[n], key);
      assert lots == lots[..n] + [lots[n]];
    }
  }

  function GainKey(): LotPosition -> real {
    (l: LotPosition) => l.unrealizedGain.GetOr(0.0)
  }

  function ScoreKey(book: Book): LotPosition -> real {
    l => -Score(l, book)
  }

  /** Python's list[:n]: a negative n counts from the end. */
  function TakeFirst<T>(s: seq<T>, n: int): (r: seq<T>)
    ensures r <= s
    ensures 0 <= n ==> |r| == if n <= |s| then n else |s|
  {
    if 0 <= n <= |s| then s[..n]
    else if |s| < n then s
    else if 0 <= |s| + n then s[..|s| + n]
    else []
  }

  /** The lots the heuristic sells, largest loss first. */
  function HeuristicLots(book: Book): seq<LotPosition> {
    Keep(SortBy(Losses(book.positions), GainKey()), book)
  }

  /** The lots the discrete planner sells: the best scores, at most the cap. */
  function MipLots(book: Book, cap: int): seq<LotPosition> {
    TakeFirst(SortBy(Keep(book.positions, book), ScoreKey(book)), cap)
  }

  // ----- the planners

  /** Why a planner leaves a loss lot alone. */
  function RefusalOf(lot: LotPosition, book: Book): set<Tag> {
    if !IsLoss(lot) then {}
    else if SellBlocks(lot, book) != {} then SellBlocks(lot, book)
    else if lot.marketValue.None? then {}
    else set t | t in WashTriggers(lot, book.positions, book.asOf, WASH_SALE_WINDOW_DAYS)
  }

  function Refusals(lots: seq<LotPosition>, book: Book): set<Tag> {
    if |lots| == 0 then {}
    else Refusals(lots[..|lots| - 1], book) + RefusalOf(lots[|lots| - 1], book)
  }

  /** The policy band tags of the current weights. */
  function BandTags(targets: seq<Rebalance.AllocationTarget>, weights: map<Sleeve, real>): set<Tag> {
    if |targets| == 0 then {}
    else
      var t := targets[|targets| - 1];
      var w := if t.assetClass in weights then weights[t.assetClass] else 0.0;
      BandTags(targets[..|targets| - 1], weights)
        + (if w > t.maxWeight then {IpsMax(t.assetClass)} else {})
        + (if w < t.minWeight then {IpsMin(t.assetClass)} else {})
  }

  /** The book's current weights: the share of the market value, for exactly the sleeves with a priced lot. */
  ghost predicate AreWeights(book: Book, weights: map<Sleeve, real>)
    requires MarketValue(book) > 0.0
  {
    forall s ::
      && (s in weights <==> Rebalance.Held(Valued(book.positions), s))
      && (s in weights ==> weights[s] == Rebalance.Weight(Valued(book.positions), s))
  }

  method CheckBands(book: Book) returns (valued: bool, tags: set<Tag>, ghost weights: map<Sleeve, real>)
    ensures valued <==> MarketValue(book) > 0.0
    ensures valued ==> AreWeights(book, weights) && tags == BandTags(book.targets, weights)
  {
    var current := Rebalance.CurrentWeights(Valued(book.positions));
    tags, weights := {}, map[];
    if current.None? {
      return false, tags, weights;
    }
    valued, weights := true, current.value;
    for k := 0 to |book.targets|
      invariant tags == BandTags(book.targets[..k], current.value)
    {
      assert book.targets[..k + 1][..k] == book.targets[..k];
      var target := book.targets[k];
      var weight := if target.assetClass in current.value then current.value[target.assetClass] else 0.0;
      if weight > target.maxWeight {
        tags := tags + {IpsMax(target.assetClass)};
      }
      if weight < target.minWeight {
        tags := tags + {IpsMin(target.assetClass)};
      }
    }
    assert book.targets[..|book.targets|] == book.targets;
  }

  lemma KeepStep(lots: seq<LotPosition>, k: nat, book: Book)
    requires k < |lots|
    ensures Keep(lots[..k + 1], book) == Keep(lots[..k], book) + if Harvestable(lots[k], book) then [lots[k]] else []
    ensures Refusals(lots[..k + 1], book) == Refusals(lots[..k], book) + RefusalOf(lots[k], book)
  {
    hide Harvestable, RefusalOf;
    assert lots[..k + 1][..k] == lots[..k];
  }

  lemma TradesAppend(kept: seq<LotPosition>, lot: LotPosition, book: Book)
    ensures Trades(kept + [lot]) == Trades(kept) + [TradeOf(lot)]
    ensures TotalTax(kept + [lot], book) == TotalTax(kept, book) + HarvestTax(lot, book)
  {
  }

  /** One loss lot, decided: sell it, or say why not. */
  method Decide(lot: LotPosition, book: Book) returns (sell: bool, tags: set<Tag>)
    ensures sell <==> Harvestable(lot, book)
    ensures tags == RefusalOf(lot, book)
  {
    hide Triggers, WashTriggers;
    tags := {};
    if !IsLoss(lot) {
      return false, tags;
    }
    var blocks := SellBlocks(lot, book);
    if blocks != {} {
      return false, blocks;
    }
    if lot.marketValue.None? {
      return false, tags;
    }
    var triggers := EvaluateWashSaleRisk(lot, book.positions, book.asOf, WASH_SALE_WINDOW_DAYS);
    tags := set t | t in triggers;
    assert tags == {} <==> triggers == [] by {
      if |triggers| > 0 {
        assert triggers[0] in tags;
      }
    }
    sell := triggers == [];
  }

  method RunTaxAwareOptimizer(book: Book) returns (r: PlanResult, ghost weights: map<Sleeve, real>)
    ensures r.NoMarketValue? <==> MarketValue(book) <= 0.0
    ensures r.Planned? ==>
              var bands := BandTags(book.targets, weights);
              var refusals := Refusals(SortBy(Losses(book.positions), GainKey()), book) + bands;
              && AreWeights(book, weights)
              && r.trades == Trades(HeuristicLots(book)) && r.taxDelta == TotalTax(HeuristicLots(book), book)
              && r.binding == refusals + if r.trades == [] && refusals != {} then {NoAction} else {}
  {
    hide AreWeights, Harvestable, HarvestTax, RefusalOf, SortBy, Losses, BandTags, Keep, Refusals, TotalTax, Trades;
    var valued, tags;
    valued, tags, weights := CheckBands(book);
    if !valued {
      return NoMarketValue, weights;
    }
    var lossLots := SortBy(Losses(book.positions), GainKey());
    var trades, binding, taxDelta := [], {}, 0.0;
    NothingKept(lossLots, book);
    for k := 0 to |lossLots|
      invariant trades == Trades(Keep(lossLots[..k], book))
      invariant taxDelta == TotalTax(Keep(lossLots[..k], book), book)
      invariant binding == Refusals(lossLots[..k], book)
    {
      var lot := lossLots[k];
      KeepStep(lossLots, k, book);
      TradesAppend(Keep(lossLots[..k], book), lot, book);
      var sell, why := Decide(lot, book);
      binding := binding + why;
      if sell {
        taxDelta := taxDelta + HarvestTax(lot, book);
        trades := trades + [TradeOf(lot)];
      } else {
        assert Keep(lossLots[..k], book) + [] == Keep(lossLots[..k], book);
      }
    }
    assert lossLots[..|lossLots|] == lossLots;
    binding := binding + tags;
    if trades == [] && binding != {} {
      binding := binding + {NoAction};
    }
    r := Planned(trades, taxDelta, binding);
  }

  lemma NothingKept(lots: seq<LotPosition>, book: Book)
    ensures Keep(lots[..0], book) == [] && Refusals(lots[..0], book) == {}
    ensures Trades([]) == [] && TotalTax([], book) == 0.0
  {
  }

  method RunMipOptimizer(book: Book, cap: int) returns (r: PlanResult, ghost weights: map<Sleeve, real>)
    ensures r.NoMarketValue? <==> MarketValue(book) <= 0.0
    ensures r.Planned? ==>
              && AreWeights(book, weights)
              && r.trades == Trades(MipLots(book, cap)) && r.taxDelta == TotalTax(MipLots(book, cap), book)
              && r.binding == Refusals(book.positions, book) + BandTags(book.targets, weights)
                                + if r.trades == [] then {NoFeasibleLots} else {}
  {
    hide AreWeights, Harvestable, HarvestTax, RefusalOf, SortBy, BandTags, Keep, Refusals, TotalTax, Trades, TakeFirst;
    var valued, tags;
    valued, tags, weights := CheckBands(book);
    if !valued {
      return NoMarketValue, weights;
    }
    var candidates, binding := [], {};
    NothingKept(book.positions, book);
    for k := 0 to |book.positions|
      invariant candidates == Keep(book.positions[..k], book)
      invariant binding == Refusals(book.positions[..k], book)
    {
      KeepStep(book.positions, k, book);
      var sell, why := Decide(book.positions[k], book);
      binding := binding + why;
      if sell {
        candidates := candidates + [book.positions[k]];
      }
    }
    assert book.positions[..|book.positions|] == book.positions;
    var chosen := TakeFirst(SortBy(candidates, ScoreKey(book)), cap);
    var trades, taxDelta := [], 0.0;
    for k := 0 to |chosen|
      invariant trades == Trades(chosen[..k]) && taxDelta == TotalTax(chosen[..k], book)
    {
      TradesAppend(chosen[..k], chosen[k], book);
      assert chosen[..k + 1] == chosen[..k] + [chosen[k]];
      taxDelta := taxDelta + HarvestTax(chosen[k], book);
      trades := trades + [TradeOf(chosen[k])];
    }
    assert chosen[..|chosen|] == chosen;
    binding := binding + tags;
    if trades == [] {
      binding := binding + {NoFeasibleLots};
    }
    r := Planned(trades, taxDelta, binding);
  }
}
