/** What a list of stock splits does to the lots themselves (corporate_actions.py). */
module SplitsOnInputs {
  import opened Vectors
  import opened Lots
  import opened Splits

  /** The lot keeps its identity: only the quantity and the per-share cost may differ. */
  predicate SameLot(a: Lot, b: Lot) {
    && a.lotId == b.lotId && a.accountId == b.accountId && a.securityId == b.securityId
    && a.acquisitionDate == b.acquisitionDate && a.washSaleChainId == b.washSaleChainId
  }

  /**
   * One split: refused for a ratio that is not positive, else for a lot of the security whose quantity is not;
   * otherwise every lot of the security has its quantity times the ratio at a cost that gives the old one times the
   * ratio, and every other lot is untouched.
   */
  lemma SplitOnInputs(lots: seq<Lot>, action: SplitAction)
    ensures var r := SplitOne(lots, action);
            && (r == Refused(RatioNotPositive) <==> action.ratio <= 0.0)
            && (r == Refused(QuantityNotPositive)
                <==> action.ratio > 0.0
                     && exists i :: && 0 <= i < |lots| && lots[i].securityId == action.securityId
                                    && lots[i].quantity <= 0.0)
            && (r.Split? ==>
                  && |r.lots| == |lots|
                  && forall i :: 0 <= i < |lots| ==>
                       && SameLot(r.lots[i], lots[i])
                       && (lots[i].securityId != action.securityId ==> r.lots[i] == lots[i])
                       && (lots[i].securityId == action.securityId ==>
                             && r.lots[i].quantity == lots[i].quantity * action.ratio
                             && r.lots[i].costBasisPerShare * action.ratio == lots[i].costBasisPerShare))
  {
    hide Mul, Div, SplitOne, Scaled;
    RefusalKind(lots, action);
    OneForm(lots, action);
    var r := SplitOne(lots, action);
    assert r.Refused? ==> r == Refused(r.error) && (r.error.RatioNotPositive? || r.error.QuantityNotPositive?);
    assert r.Split? <==> && action.ratio > 0.0
                         && !exists i :: 0 <= i < |lots| && lots[i].securityId == action.securityId
                                         && lots[i].quantity <= 0.0;
    if SplitOne(lots, action).Split? {
      forall i | 0 <= i < |lots|
        ensures SameLot(Scaled(lots[i], Factor(action, lots[i].securityId)), lots[i])
        ensures lots[i].securityId != action.securityId ==>
                  Scaled(lots[i], Factor(action, lots[i].securityId)) == lots[i]
        ensures lots[i].securityId == action.securityId ==>
                  var scaled := Scaled(lots[i], Factor(action, lots[i].securityId));
                  && scaled.quantity == lots[i].quantity * action.ratio
                  && scaled.costBasisPerShare * action.ratio == lots[i].costBasisPerShare
      {
        ScaledByOne(lots[i]);
        ScaledOnInputs(lots[i], if lots[i].securityId == action.securityId then action.ratio else 1.0);
      }
    }
  }

  lemma ScaledOnInputs(lot: Lot, p: real)
    requires p > 0.0
    ensures SameLot(Scaled(lot, p), lot)
    ensures Scaled(lot, p).quantity == lot.quantity * p && Scaled(lot, p).costBasisPerShare * p == lot.costBasisPerShare
  {
  }

  lemma {:induction false} RefusalKind(lots: seq<Lot>, action: SplitAction)
    ensures SplitOne(lots, action) == Refused(RatioNotPositive) <==> action.ratio <= 0.0
  {
    hide Mul, Div;
    if |lots| > 0 {
      RefusalKind(lots[..|lots| - 1], action);
    }
  }

  /** A list of splits is its splits one after the other, up to the first that is refused. */
  lemma SplitsInOrder(lots: seq<Lot>, actions: seq<SplitAction>, action: SplitAction)
    ensures SplitMany(lots, []) == Split(lots)
    ensures var before := SplitMany(lots, actions);
            SplitMany(lots, actions + [action]) == if before.Refused? then before else SplitOne(before.lots, action)
  {
    hide SplitOne;
    assert (actions + [action])[..|actions|] == actions;
  }
}
