/** The planners' wash-sale guard and the ledger's chain assignment agree. */
module HarvestChains {
  import opened Lots
  import opened Closure
  import opened WashChains
  import opened Harvest
  import HarvestOptimality

  /**
   * The ledger holds the planner's lots, under the same ids, and maps each security to the planner's substitute
   * group.
   */
  ghost predicate Mirrors(positions: seq<LotPosition>, lots: seq<Lot>, groups: Groups) {
    && |positions| == |lots|
    && (forall i :: 0 <= i < |lots| ==>
          && lots[i].lotId == positions[i].lotId
          && lots[i].securityId == positions[i].securityId
          && lots[i].acquisitionDate == positions[i].acquisitionDate
          && GroupOf(groups, lots[i].securityId) == positions[i].substituteGroup)
    && (forall i, j :: 0 <= i < j < |lots| ==> lots[i].lotId != lots[j].lotId)
  }

  /** Every trade taken as a sell at a loss on the date. */
  function LossSells(trades: seq<Trade>, asOf: int): seq<SellEvent> {
    seq(|trades|, i requires 0 <= i < |trades| => SellEvent(trades[i].lotId, asOf, true))
  }

  lemma TriggerIsWash(positions: seq<LotPosition>, lots: seq<Lot>, groups: Groups, i: nat, j: nat, asOf: int,
                      window: int)
    requires Mirrors(positions, lots, groups) && i < |lots| && j < |lots|
    ensures Triggers(positions[i], positions[j], asOf, window) <==> Washes(lots[i], asOf, lots[j], groups, window)
  {
  }

  lemma {:induction false} LinkedIdsMember(sold: Lot, lots: seq<Lot>, groups: Groups, date: int, window: int, b: string)
    ensures b in LinkedIds(sold, lots, groups, date, window)
       <==> || b == sold.lotId
            || exists j :: 0 <= j < |lots| && Washes(sold, date, lots[j], groups, window) && lots[j].lotId == b
  {
    hide Washes;
    if |lots| > 0 {
      var n := |lots| - 1;
      LinkedIdsMember(sold, lots[..n], groups, date, window, b);
      if j :| 0 <= j < |lots| && Washes(sold, date, lots[j], groups, window) && lots[j].lotId == b {
        assert j < n ==> lots[..n][j] == lots[j];
      }
    }
  }

  lemma {:induction false} LinksToMember(lots: seq<Lot>, k: nat, sold: Lot, date: int, groups: Groups, window: int,
                                         e: Link<string>)
    requires k <= |lots|
    ensures e in LinksTo(lots, k, sold, date, groups, window)
       <==> exists j :: 0 <= j < k && Washes(sold, date, lots[j], groups, window) && e == (sold.lotId, lots[j].lotId)
  {
    hide Washes;
    if k > 0 {
      LinksToMember(lots, k - 1, sold, date, groups, window, e);
    }
  }

  /**
   * The guard of the planners, the oracle of the ledger and the links of the assignment are one test:
   * the guard is empty iff the oracle answers the sold lot alone iff a loss sell adds no link.
   */
  lemma GuardIsOracle(positions: seq<LotPosition>, lots: seq<Lot>, groups: Groups, i: nat, asOf: int, window: int)
    requires Mirrors(positions, lots, groups) && i < |lots|
    ensures WashTriggers(positions[i], positions, asOf, window) == []
       <==> LinkedIds(lots[i], lots, groups, asOf, window) == {lots[i].lotId}
    ensures WashTriggers(positions[i], positions, asOf, window) == []
       <==> LinksTo(lots, |lots|, lots[i], asOf, groups, window) == {}
  {
    hide Mirrors, Triggers, LinkedIds, LinksTo;
    assert |positions| == |lots| by { MirrorLength(positions, lots, groups); }
    ClearIffNoTrigger(positions[i], positions, asOf, window);
    if WashTriggers(positions[i], positions, asOf, window) == [] {
      forall j | 0 <= j < |lots|
        ensures !Washes(lots[i], asOf, lots[j], groups, window)
      {
        TriggerIsWash(positions, lots, groups, i, j, asOf, window);
      }
      hide Washes;
      forall b
        ensures b in LinkedIds(lots[i], lots, groups, asOf, window) <==> b == lots[i].lotId
      {
        LinkedIdsMember(lots[i], lots, groups, asOf, window, b);
      }
      forall e
        ensures e !in LinksTo(lots, |lots|, lots[i], asOf, groups, window)
      {
        LinksToMember(lots, |lots|, lots[i], asOf, groups, window, e);
      }
    } else {
      var j :| 0 <= j < |positions| && Triggers(positions[i], positions[j], asOf, window);
      TriggerIsWash(positions, lots, groups, i, j, asOf, window);
      LinkedIdsMember(lots[i], lots, groups, asOf, window, lots[j].lotId);
      LinksToMember(lots, |lots|, lots[i], asOf, groups, window, (lots[i].lotId, lots[j].lotId));
      assert lots[j].lotId != lots[i].lotId;
    }
  }

  lemma MirrorLength(positions: seq<LotPosition>, lots: seq<Lot>, groups: Groups)
    requires Mirrors(positions, lots, groups)
    ensures |positions| == |lots|
  {
  }

  lemma {:induction false} ByIdAt(lots: seq<Lot>, i: nat)
    requires i < |lots| && forall j :: i < j < |lots| ==> lots[j].lotId != lots[i].lotId
    ensures lots[i].lotId in ById(lots) && ById(lots)[lots[i].lotId] == lots[i]
  {
    if i < |lots| - 1 {
      ByIdAt(lots[..|lots| - 1], i);
    }
  }

  /** The sold lots, with the place of each in the book. */
  ghost predicate SellsHeld(sold: seq<LotPosition>, positions: seq<LotPosition>) {
    forall k :: 0 <= k < |sold| ==> sold[k] in positions
  }

  lemma SellLinks(positions: seq<LotPosition>, lots: seq<Lot>, groups: Groups, sold: LotPosition, asOf: int,
                  window: int)
    requires Mirrors(positions, lots, groups) && sold in positions
    ensures sold.lotId in ById(lots)
    ensures LinksOfSell(lots, groups, SellEvent(sold.lotId, asOf, true), window) == {}
            <==> WashTriggers(sold, positions, asOf, window) == []
  {
    var i :| 0 <= i < |positions| && positions[i] == sold;
    ByIdAt(lots, i);
    hide ById, WashTriggers;
    GuardIsOracle(positions, lots, groups, i, asOf, window);
  }

  lemma SellEventOf(sold: seq<LotPosition>, asOf: int, k: nat)
    requires k < |sold|
    ensures |LossSells(Trades(sold), asOf)| == |sold|
    ensures LossSells(Trades(sold), asOf)[k] == SellEvent(sold[k].lotId, asOf, true)
  {
  }

  /** No chain at all exactly when no link at all. */
  lemma NoChainIffNoLink(lots: seq<Lot>, groups: Groups, sells: seq<SellEvent>, window: int, r: ChainResult)
    requires IsAssignment(lots, groups, sells, window, r) && r.Assigned?
    ensures |r.lots| == |lots|
    ensures (forall i :: 0 <= i < |lots| ==> r.lots[i].washSaleChainId.None?)
            <==> LinksOf(lots, groups, sells, window) == {}
  {
    var links := LinksOf(lots, groups, sells, window);
    LinksProper(lots, groups, sells, window);
    if links == {} {
      forall i | 0 <= i < |lots|
        ensures r.lots[i].washSaleChainId.None?
      {
        ChainsAreClosure(lots, groups, sells, window, r, i, i);
      }
    } else {
      var e :| e in links;
      assert (e.0, e.1) in links;
      var i := ByIdFrom(lots, e.0);
      ChainsAreClosure(lots, groups, sells, window, r, i, i);
      assert Adjacent(links, lots[i].lotId, e.1);
    }
  }

  /**
   * Feed any choice of held lots to the assignment as loss sells on one date: no lot gets a chain id
   * exactly when the planners' guard is empty for every sold lot.
   */
  lemma ChainsIffGuard(positions: seq<LotPosition>, lots: seq<Lot>, groups: Groups, sold: seq<LotPosition>,
                       asOf: int, window: int, r: ChainResult)
    requires Mirrors(positions, lots, groups) && SellsHeld(sold, positions)
    requires IsAssignment(lots, groups, LossSells(Trades(sold), asOf), window, r)
    ensures r.Assigned? && |r.lots| == |lots|
    ensures (forall i :: 0 <= i < |lots| ==> r.lots[i].washSaleChainId.None?)
       <==> (forall k :: 0 <= k < |sold| ==> WashTriggers(sold[k], positions, asOf, window) == [])
  {
    hide Mirrors, Washes, WashTriggers, ById, LinksOfSell, LinksOf, IsChainId;
    var sells := LossSells(Trades(sold), asOf);
    forall k | 0 <= k < |sold|
      ensures sells[k].lotId in ById(lots)
      ensures LinksOfSell(lots, groups, sells[k], window) == {}
              <==> WashTriggers(sold[k], positions, asOf, window) == []
    {
      SellEventOf(sold, asOf, k);
      SellLinks(positions, lots, groups, sold[k], asOf, window);
    }
    AllKnown(lots, sells);
    NoChainIffNoLink(lots, groups, sells, window, r);
    NoLinkIffNone(lots, groups, sells, window);
  }

  lemma NoLinkIffNone(lots: seq<Lot>, groups: Groups, sells: seq<SellEvent>, window: int)
    ensures LinksOf(lots, groups, sells, window) == {}
       <==> forall k :: 0 <= k < |sells| ==> LinksOfSell(lots, groups, sells[k], window) == {}
  {
  }

  /**
   * A harvest plan never creates a wash chain: all trades of either planner, sold at a loss on its date, link
   * nothing.
   */
  lemma PlansMakeNoChain(book: Book, cap: int, lots: seq<Lot>, groups: Groups, plan: seq<LotPosition>, r: ChainResult)
    requires Mirrors(book.positions, lots, groups)
    requires plan == HeuristicLots(book) || plan == MipLots(book, cap)
    requires IsAssignment(lots, groups, LossSells(Trades(plan), book.asOf), WASH_SALE_WINDOW_DAYS, r)
    ensures r.Assigned? && |r.lots| == |lots|
    ensures forall i :: 0 <= i < |lots| ==> r.lots[i].washSaleChainId.None?
  {
    hide Mirrors, IsAssignment, HeuristicLots, MipLots;
    HarvestOptimality.HeuristicSellsAll(book);
    HarvestOptimality.MipSellsPart(book, cap);
    HarvestOptimality.MembersFrom(plan, HeuristicLots(book));
    forall k | 0 <= k < |plan|
      ensures plan[k] in book.positions && WashTriggers(plan[k], book.positions, book.asOf, WASH_SALE_WINDOW_DAYS) == []
    {
      assert plan[k] in HeuristicLots(book);
      assert Harvestable(plan[k], book);
    }
    ChainsIffGuard(book.positions, lots, groups, plan, book.asOf, WASH_SALE_WINDOW_DAYS, r);
  }
}
