/** What the two harvest planners say about the lots, rates and policy they were given (heuristics.py, mip.py). */
module HarvestOnInputs {
  import opened Vectors
  import opened Wrappers
  import opened Sleeves
  import opened Harvest
  import opened HarvestOptimality
  import RebalanceOnInputs

  // ----- one lot

  /** other would wash a loss taken on lot at the date: the same security or group, bought within thirty days of it. */
  predicate WashesLoss(lot: LotPosition, other: LotPosition, asOf: int) {
    && other.lotId != lot.lotId
    && (other.securityId == lot.securityId
        || (other.substituteGroup != None && other.substituteGroup == lot.substituteGroup))
    && -30 <= other.acquisitionDate - asOf <= 30
  }

  /** Exactly the lots with a loss and a price, free to sell, and without such another lot are harvested. */
  lemma HarvestableOnInputs(lot: LotPosition, book: Book)
    ensures Harvestable(lot, book)
       <==> && lot.unrealizedGain.Some? && lot.unrealizedGain.value < 0.0 && lot.marketValue != None
            && !lot.isRestricted && lot.securityId !in book.restricted
            && forall i :: 0 <= i < |book.positions| ==> !WashesLoss(lot, book.positions[i], book.asOf)
  {
    hide WashTriggers;
    ClearIffNoTrigger(lot, book.positions, book.asOf, 30);
    forall i | 0 <= i < |book.positions|
      ensures WashesLoss(lot, book.positions[i], book.asOf) <==> Triggers(lot, book.positions[i], book.asOf, 30)
    {
    }
  }

  /** The tax effect of a lot: its gain at the long-term rate from 365 days on, at the short-term rate before. */
  lemma TaxOnInputs(lot: LotPosition, book: Book)
    requires lot.unrealizedGain.Some?
    ensures book.asOf - lot.acquisitionDate >= 365 ==>
              HarvestTax(lot, book) == lot.unrealizedGain.value * book.ltcgRate
    ensures book.asOf - lot.acquisitionDate < 365 ==>
              HarvestTax(lot, book) == lot.unrealizedGain.value * book.stcgRate
  {
  }

  /** The score of a lot: the magnitude of its tax effect per dollar of market value, zero without a positive value. */
  lemma ScoreOnInputs(lot: LotPosition, book: Book)
    requires lot.marketValue.Some?
    ensures var tax := HarvestTax(lot, book);
            && (lot.marketValue.value <= 0.0 ==> Score(lot, book) == 0.0)
            && (lot.marketValue.value > 0.0 ==>
                  Mul(lot.marketValue.value, Score(lot, book)) == if tax >= 0.0 then tax else -tax)
  {
    hide Mul, Div, HarvestTax;
    if lot.marketValue.value > 0.0 {
      DivFacts(Abs(HarvestTax(lot, book)), 0.0, lot.marketValue.value);
    }
  }

  // ----- the totals and the trades

  predicate AreTaxes(v: Vec, lots: seq<LotPosition>, book: Book) {
    |v| == |lots| && forall i :: 0 <= i < |lots| ==> v[i] == HarvestTax(lots[i], book)
  }

  lemma {:induction false} SumIsTotal(lots: seq<LotPosition>, f: LotPosition -> real, v: Vec)
    requires |v| == |lots| && forall i :: 0 <= i < |lots| ==> v[i] == f(lots[i])
    ensures Sum(lots, f) == Total(v)
  {
    if |lots| > 0 {
      var n := |lots| - 1;
      SumIsTotal(lots[..n], f, v[..n]);
      assert v == v[..n] + [v[n]];
      TotalAppend(v[..n], v[n]);
    }
  }

  lemma TotalTaxOnInputs(lots: seq<LotPosition>, book: Book, v: Vec)
    requires AreTaxes(v, lots, book)
    ensures TotalTax(lots, book) == Total(v)
  {
    hide HarvestTax, Total, Sum;
    SumIsTotal(lots, l => HarvestTax(l, book), v);
  }

  /** A trade sells the whole lot: its id, its security, its account, its quantity. */
  lemma TradesOnInputs(lots: seq<LotPosition>)
    ensures |Trades(lots)| == |lots|
    ensures forall i :: 0 <= i < |lots| ==>
              && Trades(lots)[i].lotId == lots[i].lotId && Trades(lots)[i].securityId == lots[i].securityId
              && Trades(lots)[i].accountId == lots[i].accountId && Trades(lots)[i].quantity == lots[i].quantity
  {
  }

  // ----- the order of the plans

  /** The lots of one key value, in their order. */
  function OfKey(lots: seq<LotPosition>, key: LotPosition -> real, c: real): seq<LotPosition> {
    if |lots| == 0 then []
    else OfKey(lots[..|lots| - 1], key, c) + if key(lots[|lots| - 1]) == c then [lots[|lots| - 1]] else []
  }

  lemma {:induction false} OfKeyAppend(a: seq<LotPosition>, b: seq<LotPosition>, key: LotPosition -> real, c: real)
    ensures OfKey(a + b, key, c) == OfKey(a, key, c) + OfKey(b, key, c)
  {
    if |b| == 0 {
      assert a + b == a;
    } else {
      assert (a + b)[..|a + b| - 1] == a + b[..|b| - 1];
      OfKeyAppend(a, b[..|b| - 1], key, c);
    }
  }

  lemma {:induction false} InsertStable(s: seq<LotPosition>, x: LotPosition, key: LotPosition -> real, c: real)
    ensures OfKey(Insert(s, x, key), key, c) == OfKey(s, key, c) + if key(x) == c then [x] else []
  {
    if |s| == 0 || key(s[|s| - 1]) <= key(x) {
      OfKeyAppend(s, [x], key, c);
      assert [x][..0] == [];
    } else {
      var n := |s| - 1;
      InsertStable(s[..n], x, key, c);
      OfKeyAppend(Insert(s[..n], x, key), [s[n]], key, c);
      assert [s[n]][..0] == [];
    }
  }

  /** The sort is stable: lots of one key keep their order. */
  lemma {:induction false} SortStable(lots: seq<LotPosition>, key: LotPosition -> real, c: real)
    ensures OfKey(SortBy(lots, key), key, c) == OfKey(lots, key, c)
  {
    if |lots| > 0 {
      var n := |lots| - 1;
      SortStable(lots[..n], key, c);
      InsertStable(SortBy(lots[..n], key), lots[n], key, c);
    }
  }

  /** The harvestable lots, in the order in which they are held. */
  lemma {:induction false} KeepOnInputs(lots: seq<LotPosition>, book: Book) returns (rows: seq<nat>)
    ensures |Keep(lots, book)| == |rows|
    ensures forall i :: 0 <= i < |rows| ==>
              rows[i] < |lots| && Harvestable(lots[rows[i]], book) && Keep(lots, book)[i] == lots[rows[i]]
    ensures forall i, j :: 0 <= i < j < |rows| ==> rows[i] < rows[j]
    ensures forall k :: 0 <= k < |lots| && Harvestable(lots[k], book) ==> k in rows
  {
    hide Harvestable;
    if |lots| == 0 {
      rows := [];
    } else {
      var n := |lots| - 1;
      var before := KeepOnInputs(lots[..n], book);
      rows := before + if Harvestable(lots[n], book) then [n] else [];
      forall k | 0 <= k < |lots| && Harvestable(lots[k], book)
        ensures k in rows
      {
        if k < n {
          assert lots[..n][k] == lots[k];
        } else {
          assert rows[|rows| - 1] == n;
        }
      }
    }
  }

  lemma {:induction false} KeepOfKey(lots: seq<LotPosition>, book: Book, key: LotPosition -> real, c: real)
    ensures OfKey(Keep(lots, book), key, c) == Keep(OfKey(lots, key, c), book)
    ensures Keep(OfKey(Losses(lots), key, c), book) == Keep(OfKey(lots, key, c), book)
  {
    hide SellBlocks, WashTriggers;
    if |lots| > 0 {
      var n := |lots| - 1;
      KeepOfKey(lots[..n], book, key, c);
      var one := [lots[n]];
      assert one[..0] == [];
      OfKeyAppend(Keep(lots[..n], book), if Harvestable(lots[n], book) then one else [], key, c);
      OfKeyAppend(Losses(lots[..n]), if IsLoss(lots[n]) then one else [], key, c);
      KeepAppend(OfKey(lots[..n], key, c), lots[n], book);
      KeepAppend(OfKey(Losses(lots[..n]), key, c), lots[n], book);
    }
  }

  lemma KeepAppend(a: seq<LotPosition>, x: LotPosition, book: Book)
    ensures Keep(a + [x], book) == Keep(a, book) + if Harvestable(x, book) then [x] else []
    ensures Keep(a + [], book) == Keep(a, book)
  {
    hide Harvestable;
    assert (a + [x])[..|a|] == a && a + [] == a;
  }

  /** Among lots of one loss the heuristic keeps the order of the book; among those of one score the other does. */
  lemma PlansStable(book: Book, c: real)
    ensures OfKey(HeuristicLots(book), GainKey(), c) == OfKey(Keep(book.positions, book), GainKey(), c)
    ensures OfKey(SortBy(Keep(book.positions, book), ScoreKey(book)), ScoreKey(book), c)
         == OfKey(Keep(book.positions, book), ScoreKey(book), c)
  {
    hide Keep, SortBy, Losses, OfKey;
    var losses := Losses(book.positions);
    KeepOfKey(SortBy(losses, GainKey()), book, GainKey(), c);
    SortStable(losses, GainKey(), c);
    KeepOfKey(book.positions, book, GainKey(), c);
    SortStable(Keep(book.positions, book), ScoreKey(book), c);
  }

  /** The heuristic sells the largest loss first, the other planner the best score. */
  lemma OrderOnInputs(book: Book, cap: int)
    ensures forall i, j :: 0 <= i < j < |HeuristicLots(book)| ==>
              && HeuristicLots(book)[i].unrealizedGain.Some? && HeuristicLots(book)[j].unrealizedGain.Some?
              && HeuristicLots(book)[i].unrealizedGain.value <= HeuristicLots(book)[j].unrealizedGain.value
    ensures forall i, j :: 0 <= i < j < |MipLots(book, cap)| ==>
              Score(MipLots(book, cap)[i], book) >= Score(MipLots(book, cap)[j], book)
  {
    hide HeuristicLots, MipLots, Score, Harvestable;
    PlansOrdered(book, cap);
    HeuristicSellsAll(book);
    var h := HeuristicLots(book);
    forall i | 0 <= i < |h|
      ensures h[i].unrealizedGain.Some?
    {
      assert h[i] in h;
      HarvestableOnInputs(h[i], book);
    }
  }

  /** A negative cap drops that many lots from the end, as a Python slice does. */
  lemma NegativeCap(lots: seq<LotPosition>, cap: int)
    requires cap < 0
    ensures |TakeFirst(lots, cap)| == if |lots| + cap > 0 then |lots| + cap else 0
    ensures TakeFirst(lots, cap) <= lots
  {
  }

  // ----- the tags

  lemma {:induction false} WashTagOnInputs(lot: LotPosition, positions: seq<LotPosition>, asOf: int, t: Tag)
    ensures t in WashTriggers(lot, positions, asOf, 30)
       <==> exists i :: 0 <= i < |positions| && WashesLoss(lot, positions[i], asOf)
                        && t == WashSale(lot.lotId, positions[i].lotId)
  {
    if |positions| > 0 {
      var n := |positions| - 1;
      WashTagOnInputs(lot, positions[..n], asOf, t);
      assert forall i :: 0 <= i < n ==> positions[..n][i] == positions[i];
    }
  }

  /** Why a lot with a loss is not sold: the first reason found, and every washing lot by name. */
  lemma RefusalOnInputs(lot: LotPosition, book: Book, t: Tag)
    ensures t in RefusalOf(lot, book)
       <==> && lot.unrealizedGain.Some? && lot.unrealizedGain.value < 0.0
            && ((lot.isRestricted && t == DoNotSellLot(lot.lotId))
                || (!lot.isRestricted && lot.securityId in book.restricted && t == RestrictedSecurity(lot.securityId))
                || (!lot.isRestricted && lot.securityId !in book.restricted && lot.marketValue != None
                    && exists i :: 0 <= i < |book.positions| && WashesLoss(lot, book.positions[i], book.asOf)
                                   && t == WashSale(lot.lotId, book.positions[i].lotId)))
  {
    hide WashTriggers, WashesLoss;
    WashTagOnInputs(lot, book.positions, book.asOf, t);
  }

  lemma {:induction false} RefusalsOnInputs(lots: seq<LotPosition>, book: Book, t: Tag)
    ensures t in Refusals(lots, book) <==> exists i :: 0 <= i < |lots| && t in RefusalOf(lots[i], book)
  {
    hide RefusalOf;
    if |lots| > 0 {
      var n := |lots| - 1;
      RefusalsOnInputs(lots[..n], book, t);
      assert forall i :: 0 <= i < n ==> lots[..n][i] == lots[i];
    }
  }

  /** The weight that the bands are held against: zero for a sleeve without a priced lot. */
  function WeightIn(weights: map<Sleeve, real>, s: Sleeve): real {
    if s in weights then weights[s] else 0.0
  }

  /** A band tag for each target whose sleeve lies above its cap or below its floor. */
  lemma {:induction false} BandTagsOnInputs(targets: seq<Rebalance.AllocationTarget>, weights: map<Sleeve, real>,
                                            t: Tag)
    ensures t in BandTags(targets, weights)
       <==> exists k :: && 0 <= k < |targets|
                        && var w := WeightIn(weights, targets[k].assetClass);
                           || (w > targets[k].maxWeight && t == IpsMax(targets[k].assetClass))
                           || (w < targets[k].minWeight && t == IpsMin(targets[k].assetClass))
  {
    if |targets| > 0 {
      var n := |targets| - 1;
      BandTagsOnInputs(targets[..n], weights, t);
      assert forall k :: 0 <= k < n ==> targets[..n][k] == targets[k];
    }
  }

  lemma {:induction false} LossesSame(lots: seq<LotPosition>, l: LotPosition)
    ensures multiset(Losses(lots))[l] == if l.unrealizedGain.Some? && l.unrealizedGain.value < 0.0
                                         then multiset(lots)[l] else 0
  {
    if |lots| > 0 {
      var n := |lots| - 1;
      LossesSame(lots[..n], l);
      assert lots == lots[..n] + [lots[n]];
    }
  }

  /** The refusals of the heuristic are those of all lots: sorting and dropping the gains loses none. */
  lemma SameRefusals(book: Book, t: Tag)
    ensures t in Refusals(SortBy(Losses(book.positions), GainKey()), book)
       <==> exists i :: 0 <= i < |book.positions| && t in RefusalOf(book.positions[i], book)
  {
    hide RefusalOf, SortBy, Losses;
    var sorted := SortBy(Losses(book.positions), GainKey());
    SortFacts(Losses(book.positions), GainKey());
    RefusalsOnInputs(sorted, book, t);
    if i :| 0 <= i < |sorted| && t in RefusalOf(sorted[i], book) {
      LossesSame(book.positions, sorted[i]);
      assert sorted[i] in multiset(sorted);
      assert sorted[i] in multiset(book.positions);
      var j :| 0 <= j < |book.positions| && book.positions[j] == sorted[i];
    }
    if i :| 0 <= i < |book.positions| && t in RefusalOf(book.positions[i], book) {
      LossesSame(book.positions, book.positions[i]);
      RefusalIsLoss(book.positions[i], book, t);
      assert book.positions[i] in multiset(book.positions);
      assert book.positions[i] in multiset(sorted);
      var j :| 0 <= j < |sorted| && sorted[j] == book.positions[i];
    }
  }

  lemma RefusalIsLoss(lot: LotPosition, book: Book, t: Tag)
    requires t in RefusalOf(lot, book)
    ensures lot.unrealizedGain.Some? && lot.unrealizedGain.value < 0.0
  {
  }

  // ----- the weights

  /** The value of the book and the weights of its sleeves, from the priced lots. */
  lemma WeightsOnInputs(book: Book, weights: map<Sleeve, real>, all: Vec, s: Sleeve, own: Vec)
    requires |all| == |own| == |book.positions|
    requires forall i :: 0 <= i < |all| ==>
               all[i] == (match book.positions[i].marketValue case None => 0.0 case Some(x) => x)
    requires forall i :: 0 <= i < |own| ==> own[i] == if book.positions[i].sleeve == s then all[i] else 0.0
    ensures MarketValue(book) == Total(all)
    ensures Total(all) > 0.0 && AreWeights(book, weights) ==>
              && (s in weights <==> exists i :: 0 <= i < |book.positions| && book.positions[i].sleeve == s
                                                && book.positions[i].marketValue != None)
              && Mul(Total(all), WeightIn(weights, s)) == Total(own)
  {
    hide Mul, Total, Rebalance.MarketValue, Rebalance.Weight;
    var v := Valued(book.positions);
    RebalanceOnInputs.MarketValueOnInputs(v, all);
    if Total(all) > 0.0 && AreWeights(book, weights) {
      RebalanceOnInputs.WeightOnInputs(v, s, all, own);
      assert Rebalance.Held(v, s) <==> exists i :: 0 <= i < |book.positions| && book.positions[i].sleeve == s
                                                   && book.positions[i].marketValue != None by {
        if i :| 0 <= i < |book.positions| && book.positions[i].sleeve == s && book.positions[i].marketValue != None {
          assert v[i].sleeve == s && v[i].marketValue.Some?;
        }
      }
      Rebalance.UnheldWeightIsZero(v);
      MulZero(Total(all));
    }
  }
}
