/** What the chain assignment says about the lots and sells it was given (wash_chains.py). */
module ChainsOnInputs {
  import opened Wrappers
  import opened Lots
  import opened Closure
  import opened WashChains

  // ----- the links

  predicate SameGroup(groups: Groups, a: string, b: string) {
    a in groups && b in groups && groups[a] != None && groups[a] == groups[b]
  }

  /** A sell at a loss of lot i, the last lot of its id, within the window of the purchase of an identical lot j. */
  predicate Joins(lots: seq<Lot>, groups: Groups, sell: SellEvent, window: int, i: int, j: int) {
    && 0 <= i < |lots| && 0 <= j < |lots| && sell.atLoss && lots[i].lotId == sell.lotId
    && (forall k :: i < k < |lots| ==> lots[k].lotId != lots[i].lotId)
    && lots[j].lotId != lots[i].lotId
    && (lots[i].securityId == lots[j].securityId || SameGroup(groups, lots[i].securityId, lots[j].securityId))
    && -window <= lots[j].acquisitionDate - sell.sellDate <= window
  }

  /** Some sell joins the first lot to the second. */
  ghost predicate Joined(lots: seq<Lot>, groups: Groups, sells: seq<SellEvent>, window: int, a: string, b: string) {
    exists k, i, j :: 0 <= k < |sells| && Joins(lots, groups, sells[k], window, i, j)
                      && lots[i].lotId == a && lots[j].lotId == b
  }

  lemma {:induction false} LastOfId(lots: seq<Lot>, i: int)
    requires 0 <= i < |lots| && forall k :: i < k < |lots| ==> lots[k].lotId != lots[i].lotId
    ensures lots[i].lotId in ById(lots) && ById(lots)[lots[i].lotId] == lots[i]
  {
    if i < |lots| - 1 {
      LastOfId(lots[..|lots| - 1], i);
    }
  }

  lemma {:induction false} SomeLast(lots: seq<Lot>, id: string) returns (i: int)
    requires id in ById(lots)
    ensures 0 <= i < |lots| && lots[i].lotId == id && forall k :: i < k < |lots| ==> lots[k].lotId != id
  {
    var n := |lots| - 1;
    if lots[n].lotId == id {
      i := n;
    } else {
      i := SomeLast(lots[..n], id);
      assert forall k :: 0 <= k < n ==> lots[..n][k] == lots[k];
    }
  }

  lemma {:induction false} LinksToMember(lots: seq<Lot>, n: nat, sold: Lot, date: int, groups: Groups, window: int,
                                         a: string, b: string)
    requires n <= |lots|
    ensures (a, b) in LinksTo(lots, n, sold, date, groups, window)
       <==> && a == sold.lotId
            && exists j :: 0 <= j < n && lots[j].lotId == b && Washes(sold, date, lots[j], groups, window)
  {
    hide Washes;
    if n > 0 {
      LinksToMember(lots, n - 1, sold, date, groups, window, a, b);
    }
  }

  lemma WashesIffJoins(lots: seq<Lot>, groups: Groups, sell: SellEvent, window: int, i: int, j: int)
    requires 0 <= i < |lots| && 0 <= j < |lots| && sell.atLoss && lots[i].lotId == sell.lotId
    requires forall k :: i < k < |lots| ==> lots[k].lotId != lots[i].lotId
    ensures Washes(lots[i], sell.sellDate, lots[j], groups, window) <==> Joins(lots, groups, sell, window, i, j)
  {
  }

  lemma SellLinksOnInputs(lots: seq<Lot>, groups: Groups, sell: SellEvent, window: int, a: string, b: string)
    ensures (a, b) in LinksOfSell(lots, groups, sell, window)
       <==> exists i, j :: Joins(lots, groups, sell, window, i, j) && lots[i].lotId == a && lots[j].lotId == b
  {
    hide Washes, LinksTo, ById;
    if (a, b) in LinksOfSell(lots, groups, sell, window) {
      var i := SomeLast(lots, sell.lotId);
      LastOfId(lots, i);
      LinksToMember(lots, |lots|, lots[i], sell.sellDate, groups, window, a, b);
      var j :| 0 <= j < |lots| && lots[j].lotId == b && Washes(lots[i], sell.sellDate, lots[j], groups, window);
      WashesIffJoins(lots, groups, sell, window, i, j);
      assert Joins(lots, groups, sell, window, i, j);
    }
    if i, j :| Joins(lots, groups, sell, window, i, j) && lots[i].lotId == a && lots[j].lotId == b {
      LastOfId(lots, i);
      WashesIffJoins(lots, groups, sell, window, i, j);
      LinksToMember(lots, |lots|, lots[i], sell.sellDate, groups, window, a, b);
    }
  }

  /** The links of the specification are exactly the joins that the sells make. */
  lemma LinksOnInputs(lots: seq<Lot>, groups: Groups, sells: seq<SellEvent>, window: int, a: string, b: string)
    ensures (a, b) in LinksOf(lots, groups, sells, window) <==> Joined(lots, groups, sells, window, a, b)
  {
    hide LinksOfSell;
    LinksOfMember(lots, groups, sells, window, (a, b));
    if (a, b) in LinksOf(lots, groups, sells, window) {
      var k :| 0 <= k < |sells| && (a, b) in LinksOfSell(lots, groups, sells[k], window);
      SellLinksOnInputs(lots, groups, sells[k], window, a, b);
    }
    if Joined(lots, groups, sells, window, a, b) {
      var k, i, j :| 0 <= k < |sells| && Joins(lots, groups, sells[k], window, i, j)
                     && lots[i].lotId == a && lots[j].lotId == b;
      SellLinksOnInputs(lots, groups, sells[k], window, a, b);
    }
  }

  // ----- the ids

  /** A walk from lot to lot along joins, in either direction. */
  ghost predicate Walk(lots: seq<Lot>, groups: Groups, sells: seq<SellEvent>, window: int, p: seq<string>) {
    |p| > 0 && forall i :: 0 <= i < |p| - 1 ==>
      Joined(lots, groups, sells, window, p[i], p[i + 1]) || Joined(lots, groups, sells, window, p[i + 1], p[i])
  }

  ghost predicate Reaches(lots: seq<Lot>, groups: Groups, sells: seq<SellEvent>, window: int, a: string, b: string) {
    exists p :: Walk(lots, groups, sells, window, p) && p[0] == a && p[|p| - 1] == b
  }

  lemma ReachesIffConnected(lots: seq<Lot>, groups: Groups, sells: seq<SellEvent>, window: int, a: string, b: string)
    ensures Reaches(lots, groups, sells, window, a, b) <==> Connected(LinksOf(lots, groups, sells, window), a, b)
  {
    hide LinksOf, Joined;
    var links := LinksOf(lots, groups, sells, window);
    forall p: seq<string>
      ensures Walk(lots, groups, sells, window, p) <==> Path(links, p)
    {
      forall i | 0 <= i < |p| - 1
        ensures || Joined(lots, groups, sells, window, p[i], p[i + 1])
                || Joined(lots, groups, sells, window, p[i + 1], p[i])
           <==> Adjacent(links, p[i], p[i + 1])
      {
        LinksOnInputs(lots, groups, sells, window, p[i], p[i + 1]);
        LinksOnInputs(lots, groups, sells, window, p[i + 1], p[i]);
      }
    }
  }

  predicate IsLotId(lots: seq<Lot>, id: string) {
    exists i :: 0 <= i < |lots| && lots[i].lotId == id
  }

  lemma {:induction false} IdsOnInputs(lots: seq<Lot>, id: string)
    ensures id in ById(lots) <==> IsLotId(lots, id)
  {
    if id in ById(lots) {
      var i := SomeLast(lots, id);
    }
    if i :| 0 <= i < |lots| && lots[i].lotId == id {
      ByIdHasAll(lots, i);
    }
  }

  /** a comes before b or is b: it is a prefix, or smaller at the first place where they differ. */
  ghost predicate Before(a: string, b: string) {
    a <= b || exists k :: 0 <= k < |a| && k < |b| && a[..k] == b[..k] && a[k] < b[k]
  }

  lemma {:induction false} LeIsBefore(a: string, b: string)
    ensures Le(a, b) <==> Before(a, b)
  {
    if |a| > 0 && |b| > 0 {
      LeIsBefore(a[1..], b[1..]);
      if a[0] == b[0] {
        assert a == [a[0]] + a[1..] && b == [b[0]] + b[1..];
        if k :| 0 <= k < |a[1..]| && k < |b[1..]| && a[1..][..k] == b[1..][..k] && a[1..][k] < b[1..][k] {
          assert a[..k + 1] == [a[0]] + a[1..][..k] && b[..k + 1] == [b[0]] + b[1..][..k];
          assert a[k + 1] < b[k + 1];
        }
        if k :| 0 <= k < |a| && k < |b| && a[..k] == b[..k] && a[k] < b[k] {
          assert a[1..][..k - 1] == a[..k][1..] && b[1..][..k - 1] == b[..k][1..];
          assert a[1..][k - 1] < b[1..][k - 1];
        }
      } else {
        assert a[..0] == b[..0];
        if k :| 0 <= k < |a| && k < |b| && a[..k] == b[..k] && a[k] < b[k] {
          assert k > 0 ==> a[..k][0] == b[..k][0];
        }
      }
    }
  }

  /**
   * The assignment on the inputs. Nothing but the chain ids changes; two lots of different ids share one exactly when
   * joins lead from one to the other; a lot has none exactly when no join touches it; and an id is the first, in
   * dictionary order, of the lot ids that joins lead to.
   */
  lemma ChainIdsOnInputs(lots: seq<Lot>, groups: Groups, sells: seq<SellEvent>, window: int, r: ChainResult, i: nat,
                         j: nat)
    requires IsAssignment(lots, groups, sells, window, r) && r.Assigned? && i < |lots| && j < |lots|
    ensures |r.lots| == |lots|
    ensures var id := r.lots[i].washSaleChainId;
            && r.lots[i] == lots[i].(washSaleChainId := id)
            && (lots[i].lotId != lots[j].lotId ==>
                  (id != None && id == r.lots[j].washSaleChainId
                   <==> Reaches(lots, groups, sells, window, lots[i].lotId, lots[j].lotId)))
            && (id == None <==> forall b :: !Joined(lots, groups, sells, window, lots[i].lotId, b)
                                            && !Joined(lots, groups, sells, window, b, lots[i].lotId))
            && (id.Some? ==>
                  && IsLotId(lots, id.value) && Reaches(lots, groups, sells, window, lots[i].lotId, id.value)
                  && forall b :: IsLotId(lots, b) && Reaches(lots, groups, sells, window, lots[i].lotId, b) ==>
                       Before(id.value, b))
  {
    hide LinksOf, ById, Connected, Unknown, Joined, Reaches, IsLotId, Before, Le;
    var links, a, id := LinksOf(lots, groups, sells, window), lots[i].lotId, r.lots[i].washSaleChainId;
    ChainsAreClosure(lots, groups, sells, window, r, i, j);
    ReachesIffConnected(lots, groups, sells, window, a, lots[j].lotId);
    forall b
      ensures Adjacent(links, a, b)
         <==> Joined(lots, groups, sells, window, a, b) || Joined(lots, groups, sells, window, b, a)
    {
      LinksOnInputs(lots, groups, sells, window, a, b);
      LinksOnInputs(lots, groups, sells, window, b, a);
    }
    if id.Some? {
      IdsOnInputs(lots, id.value);
      ReachesIffConnected(lots, groups, sells, window, a, id.value);
      forall b | IsLotId(lots, b) && Reaches(lots, groups, sells, window, a, b)
        ensures Before(id.value, b)
      {
        IdsOnInputs(lots, b);
        ReachesIffConnected(lots, groups, sells, window, a, b);
        assert b in Component(links, ById(lots).Keys, a);
        LeIsBefore(id.value, b);
      }
    }
  }

  /** Unknown sold ids are refused, all of them named; an empty ledger refuses nothing. */
  lemma RefusalsOnInputs(lots: seq<Lot>, groups: Groups, sells: seq<SellEvent>, window: int, r: ChainResult)
    requires IsAssignment(lots, groups, sells, window, r)
    ensures r.UnknownSells? <==> |lots| > 0 && exists k :: 0 <= k < |sells| && !IsLotId(lots, sells[k].lotId)
    ensures r.UnknownSells? ==>
              forall id :: id in r.ids <==>
                !IsLotId(lots, id) && exists k :: 0 <= k < |sells| && sells[k].lotId == id
  {
    hide LinksOf, ById, IsChainId, IsLotId;
    forall id: string
      ensures id in Unknown(lots, sells) <==> !IsLotId(lots, id) && exists k :: 0 <= k < |sells| && sells[k].lotId == id
    {
      IdsOnInputs(lots, id);
      if k :| 0 <= k < |sells| && sells[k].lotId == id && !IsLotId(lots, id) {
        assert sells[k].lotId !in ById(lots);
      }
    }
    AllKnown(lots, sells);
    if k :| 0 <= k < |sells| && !IsLotId(lots, sells[k].lotId) {
      assert sells[k].lotId in Unknown(lots, sells);
    }
  }

  // ----- which sells matter

  ghost predicate AllKnownIds(lots: seq<Lot>, sells: seq<SellEvent>) {
    forall k :: 0 <= k < |sells| ==> IsLotId(lots, sells[k].lotId)
  }

  lemma KnownIsKnown(lots: seq<Lot>, sells: seq<SellEvent>)
    requires AllKnownIds(lots, sells)
    ensures Unknown(lots, sells) == {}
  {
    hide ById, IsLotId;
    forall k | 0 <= k < |sells|
      ensures sells[k].lotId in ById(lots)
    {
      IdsOnInputs(lots, sells[k].lotId);
    }
    AllKnown(lots, sells);
  }

  /** Only the sells at a loss count: dropping the others changes nothing. */
  lemma OnlyLossesCount(lots: seq<Lot>, groups: Groups, sells: seq<SellEvent>, losses: seq<SellEvent>, window: int,
                        r: ChainResult)
    requires AllKnownIds(lots, sells) && (forall s :: s in losses <==> s in sells && s.atLoss)
    requires IsAssignment(lots, groups, sells, window, r)
    ensures IsAssignment(lots, groups, losses, window, r)
  {
    hide IsChainId, Unknown, LinksOf, ById, Joins, IsLotId;
    KnownIsKnown(lots, sells);
    forall k | 0 <= k < |losses|
      ensures IsLotId(lots, losses[k].lotId)
    {
      assert losses[k] in sells;
      var j :| 0 <= j < |sells| && sells[j] == losses[k];
    }
    KnownIsKnown(lots, losses);
    forall e: Link<string>
      ensures e in LinksOf(lots, groups, sells, window) <==> e in LinksOf(lots, groups, losses, window)
    {
      LinksOnInputs(lots, groups, sells, window, e.0, e.1);
      LinksOnInputs(lots, groups, losses, window, e.0, e.1);
      JoinedByLosses(lots, groups, sells, losses, window, e.0, e.1);
    }
    assert LinksOf(lots, groups, sells, window) == LinksOf(lots, groups, losses, window);
  }

  lemma JoinedByLosses(lots: seq<Lot>, groups: Groups, sells: seq<SellEvent>, losses: seq<SellEvent>, window: int,
                       a: string, b: string)
    requires forall s :: s in losses <==> s in sells && s.atLoss
    ensures Joined(lots, groups, sells, window, a, b) <==> Joined(lots, groups, losses, window, a, b)
  {
    if Joined(lots, groups, sells, window, a, b) {
      var k, i, j :| 0 <= k < |sells| && Joins(lots, groups, sells[k], window, i, j)
                     && lots[i].lotId == a && lots[j].lotId == b;
      assert sells[k] in losses;
      var h :| 0 <= h < |losses| && losses[h] == sells[k];
    }
    if Joined(lots, groups, losses, window, a, b) {
      var k, i, j :| 0 <= k < |losses| && Joins(lots, groups, losses[k], window, i, j)
                     && lots[i].lotId == a && lots[j].lotId == b;
      assert losses[k] in sells;
      var h :| 0 <= h < |sells| && sells[h] == losses[k];
    }
  }

  /** Without a sell at a loss no lot has a chain id. */
  lemma NoLossNoChain(lots: seq<Lot>, groups: Groups, sells: seq<SellEvent>, window: int, r: ChainResult, i: nat)
    requires AllKnownIds(lots, sells) && (forall k :: 0 <= k < |sells| ==> !sells[k].atLoss)
    requires IsAssignment(lots, groups, sells, window, r) && i < |lots|
    ensures r.Assigned? && |r.lots| == |lots| && r.lots[i].washSaleChainId == None
  {
    hide IsAssignment, IsLotId;
    assert r.Assigned? by {
      RefusalsOnInputs(lots, groups, sells, window, r);
    }
    ChainIdsOnInputs(lots, groups, sells, window, r, i, i);
  }

  /** One loss sell is enough: the lot sold and the lot bought within the window share an id. */
  lemma LossSellChains(lots: seq<Lot>, groups: Groups, sells: seq<SellEvent>, window: int, r: ChainResult, k: nat,
                       i: nat, j: nat)
    requires IsAssignment(lots, groups, sells, window, r) && r.Assigned?
    requires k < |sells| && Joins(lots, groups, sells[k], window, i, j)
    ensures |r.lots| == |lots|
    ensures r.lots[i].washSaleChainId != None && r.lots[i].washSaleChainId == r.lots[j].washSaleChainId
  {
    var a, b := lots[i].lotId, lots[j].lotId;
    assert Joined(lots, groups, sells, window, a, b);
    hide Joins, Joined, IsAssignment;
    ChainIdsOnInputs(lots, groups, sells, window, r, i, j);
    assert Walk(lots, groups, sells, window, [a, b]);
  }

  /** The oracle of one sell: the sold lot itself, and every other lot that a loss sell of it would join. */
  lemma {:induction false} OracleOnInputs(sold: Lot, lots: seq<Lot>, groups: Groups, date: int, window: int, b: string)
    ensures b in LinkedIds(sold, lots, groups, date, window)
       <==> || b == sold.lotId
            || exists j :: && 0 <= j < |lots| && lots[j].lotId == b
                           && (sold.securityId == lots[j].securityId
                               || SameGroup(groups, sold.securityId, lots[j].securityId))
                           && -window <= lots[j].acquisitionDate - date <= window
  {
    if |lots| > 0 {
      var n := |lots| - 1;
      OracleOnInputs(sold, lots[..n], groups, date, window, b);
      assert forall j :: 0 <= j < n ==> lots[..n][j] == lots[j];
    }
  }
}
