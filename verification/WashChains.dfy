/** Wash-sale chain assignment (wash_chains.py). */
module WashChains {
  import opened Wrappers
  import opened Lots
  import opened UnionFind
  import opened Closure

  const WASH_SALE_WINDOW_DAYS := 30

  datatype SellEvent = SellEvent(lotId: string, sellDate: int, atLoss: bool)

  /** Substitute group per security; a security may be absent or mapped to no group. */
  type Groups = map<string, Option<string>>

  datatype ChainResult =
    | Assigned(lots: seq<Lot>)
    | UnknownSells(ids: set<string>)

  function GroupOf(groups: Groups, security: string): Option<string> {
    if security in groups then groups[security] else None
  }

  predicate SubstantiallyIdentical(a: string, b: string, groupA: Option<string>, groupB: Option<string>) {
    a == b || (groupA.Some? && groupA == groupB)
  }

  predicate WithinWindow(acquired: int, sold: int, window: int) {
    -window <= acquired - sold <= window
  }

  /** Selling lot sold on the date at a loss is washed by holding lot other. */
  predicate Washes(sold: Lot, date: int, other: Lot, groups: Groups, window: int) {
    && other.lotId != sold.lotId
    && SubstantiallyIdentical(sold.securityId, other.securityId,
                              GroupOf(groups, sold.securityId), GroupOf(groups, other.securityId))
    && WithinWindow(other.acquisitionDate, date, window)
  }

  /** lot_by_id: a later lot replaces an earlier one of the same id. */
  function ById(lots: seq<Lot>): (m: map<string, Lot>)
  {
    if |lots| == 0 then map[]
    else ById(lots[..|lots| - 1])[lots[|lots| - 1].lotId := lots[|lots| - 1]]
  }

  lemma {:induction false} ByIdHasAll(lots: seq<Lot>, i: nat)
    requires i < |lots|
    ensures lots[i].lotId in ById(lots)
  {
    if i < |lots| - 1 {
      ByIdHasAll(lots[..|lots| - 1], i);
    }
  }

  lemma {:induction false} ByIdFrom(lots: seq<Lot>, k: string) returns (i: nat)
    requires k in ById(lots)
    ensures i < |lots| && lots[i].lotId == k && ById(lots)[k] == lots[i]
  {
    var n := |lots| - 1;
    if lots[n].lotId == k {
      i := n;
    } else {
      i := ByIdFrom(lots[..n], k);
    }
  }

  function Unknown(lots: seq<Lot>, sells: seq<SellEvent>): set<string> {
    set i | 0 <= i < |sells| && sells[i].lotId !in ById(lots) :: sells[i].lotId
  }

  /** The links of a loss sell of lot sold to the first k lots. */
  ghost function LinksTo(lots: seq<Lot>, k: nat, sold: Lot, date: int, groups: Groups, window: int): set<Link<string>>
    requires k <= |lots|
  {
    if k == 0 then {}
    else
      LinksTo(lots, k - 1, sold, date, groups, window)
        + if Washes(sold, date, lots[k - 1], groups, window) then {(sold.lotId, lots[k - 1].lotId)} else {}
  }

  /** The links of one sell: none unless it is at a loss. */
  ghost function LinksOfSell(lots: seq<Lot>, groups: Groups, sell: SellEvent, window: int): set<Link<string>> {
    if sell.atLoss && sell.lotId in ById(lots) then
      LinksTo(lots, |lots|, ById(lots)[sell.lotId], sell.sellDate, groups, window)
    else {}
  }

  ghost function LinksOf(lots: seq<Lot>, groups: Groups, sells: seq<SellEvent>, window: int): set<Link<string>> {
    if |sells| == 0 then {}
    else LinksOf(lots, groups, sells[..|sells| - 1], window) + LinksOfSell(lots, groups, sells[|sells| - 1], window)
  }

  ghost function Component(links: set<Link<string>>, ids: set<string>, a: string): set<string> {
    set b | b in ids && Connected(links, a, b)
  }

  /** None for a lot alone in its component, otherwise the least lot id of the component. */
  ghost predicate IsChainId(links: set<Link<string>>, ids: set<string>, a: string, id: Option<string>) {
    if Component(links, ids, a) == {a} then id == None
    else id.Some? && IsLeast(id.value, Component(links, ids, a))
  }

  /** The specification of the assignment, lot by lot. */
  ghost predicate IsAssignment(lots: seq<Lot>, groups: Groups, sells: seq<SellEvent>, window: int, r: ChainResult) {
    if |lots| == 0 then r == Assigned([])
    else if Unknown(lots, sells) != {} then r == UnknownSells(Unknown(lots, sells))
    else
      && r.Assigned? && |r.lots| == |lots|
      && forall i :: 0 <= i < |lots| ==>
           && r.lots[i] == lots[i].(washSaleChainId := r.lots[i].washSaleChainId)
           && IsChainId(LinksOf(lots, groups, sells, window), ById(lots).Keys, lots[i].lotId, r.lots[i].washSaleChainId)
  }

  // ----- the procedure

  method AddLinks(uf: Finder<string>, lots: seq<Lot>, groups: Groups, sell: SellEvent, window: int,
                  ghost links: set<Link<string>>)
    requires uf.Valid() && uf.root.Keys == ById(lots).Keys && Computes(uf.root, links)
    requires sell.lotId in ById(lots)
    modifies uf
    ensures uf.Valid() && uf.root.Keys == ById(lots).Keys
    ensures Computes(uf.root, links + LinksOfSell(lots, groups, sell, window))
  {
    hide IsForest, Computes, Washes, LinksTo, ById;
    if !sell.atLoss {
      UnionEmpty(links, {});
      return;
    }
    LossLinks(lots, groups, sell, window);
    var sold := ById(lots)[sell.lotId];
    ghost var source := ByIdFrom(lots, sell.lotId);
    ghost var done: set<Link<string>> := {};
    UnionEmpty(links, done);
    var k := 0;
    while k < |lots|
      invariant 0 <= k <= |lots|
      invariant done == LinksTo(lots, k, sold, sell.sellDate, groups, window)
      invariant uf.Valid() && uf.root.Keys == ById(lots).Keys && Computes(uf.root, links + done)
    {
      var other := lots[k];
      LinksStep(lots, k, sold, sell.sellDate, groups, window);
      if Washes(sold, sell.sellDate, other, groups, window) {
        ByIdHasAll(lots, k);
        LinkTwo(uf, sold.lotId, other.lotId, links + done);
        UnionAssociates(links, done, {(sold.lotId, other.lotId)});
        done := done + {(sold.lotId, other.lotId)};
      } else {
        UnionEmpty(done, {});
      }
      k := k + 1;
    }
  }

  lemma LossLinks(lots: seq<Lot>, groups: Groups, sell: SellEvent, window: int)
    requires sell.atLoss && sell.lotId in ById(lots)
    ensures LinksOfSell(lots, groups, sell, window)
         == LinksTo(lots, |lots|, ById(lots)[sell.lotId], sell.sellDate, groups, window)
    ensures LinksTo(lots, 0, ById(lots)[sell.lotId], sell.sellDate, groups, window) == {}
  {
    hide ById;
  }

  lemma LinksStep(lots: seq<Lot>, k: nat, sold: Lot, date: int, groups: Groups, window: int)
    requires k < |lots|
    ensures LinksTo(lots, k + 1, sold, date, groups, window)
         == LinksTo(lots, k, sold, date, groups, window)
              + if Washes(sold, date, lots[k], groups, window) then {(sold.lotId, lots[k].lotId)} else {}
  {
    hide Washes;
  }

  lemma UnionEmpty<T>(a: set<T>, b: set<T>)
    requires b == {}
    ensures a + b == a
  {
  }

  lemma UnionAssociates<T>(a: set<T>, b: set<T>, c: set<T>)
    ensures a + b + c == a + (b + c)
  {
  }

  method LinkTwo(uf: Finder<string>, a: string, b: string, ghost links: set<Link<string>>)
    requires uf.Valid() && a in uf.root && b in uf.root && Computes(uf.root, links)
    modifies uf
    ensures uf.Valid() && uf.root.Keys == old(uf.root).Keys && Computes(uf.root, links + {(a, b)})
  {
    hide IsForest, Computes;
    ForestKeys(uf.parent, uf.root, uf.rank, uf.height);
    MergeComputes(uf.root, links, a, b);
    uf.Union(a, b);
  }

  /** The keys grouped by representative, each exactly once. */
  ghost predicate IsGrouping(root: Forest<string>, ids: set<string>, components: map<string, seq<string>>)
    requires ids <= root.Keys
  {
    && (forall c :: c in components ==> |components[c]| > 0)
    && (forall c, i :: c in components && 0 <= i < |components[c]| ==>
        components[c][i] in ids && root[components[c][i]] == c)
    && (forall c, i, j :: c in components && 0 <= i < j < |components[c]| ==> components[c][i] != components[c][j])
    && (forall k :: k in ids ==> root[k] in components && k in components[root[k]])
  }

  lemma GroupingStep(root: Forest<string>, ids: set<string>, components: map<string, seq<string>>, k: string)
    requires k in root && ids <= root.Keys && k !in ids && IsGrouping(root, ids, components)
    ensures var c := root[k];
            IsGrouping(root, ids + {k}, components[c := (if c in components then components[c] else []) + [k]])
  {
  }

  method GroupByRoot(uf: Finder<string>, ids: set<string>) returns (components: map<string, seq<string>>)
    requires uf.Valid() && uf.root.Keys == ids
    modifies uf
    ensures uf.Valid() && uf.root == old(uf.root)
    ensures IsGrouping(uf.root, ids, components)
  {
    hide IsForest;
    components := map[];
    var pending := ids;
    while pending != {}
      invariant pending <= ids
      invariant uf.Valid() && uf.root == old(uf.root)
      invariant IsGrouping(uf.root, ids - pending, components)
      decreases pending
    {
      var k :| k in pending;
      ForestKeys(uf.parent, uf.root, uf.rank, uf.height);
      var c := uf.Find(k);
      GroupingStep(uf.root, ids - pending, components, k);
      components := components[c := (if c in components then components[c] else []) + [k]];
      assert ids - (pending - {k}) == ids - pending + {k};
      pending := pending - {k};
    }
    assert ids - pending == ids;
  }

  lemma GroupMembers(root: Forest<string>, ids: set<string>, components: map<string, seq<string>>, a: string, b: string)
    requires ids == root.Keys && IsGrouping(root, ids, components) && a in root
    ensures root[a] in components && a in components[root[a]]
    ensures b in components[root[a]] <==> b in root && root[b] == root[a]
  {
  }

  /** A group of the representatives is exactly the component of each of its members. */
  lemma GroupIsComponent(root: Forest<string>, links: set<Link<string>>, components: map<string, seq<string>>,
                         a: string)
    requires Computes(root, links) && IsGrouping(root, root.Keys, components) && a in root
    ensures root[a] in components && a in components[root[a]]
    ensures forall b :: b in components[root[a]] <==> b in Component(links, root.Keys, a)
  {
    hide IsGrouping, Computes, Connected;
    GroupMembers(root, root.Keys, components, a, a);
    forall b
      ensures b in components[root[a]] <==> b in Component(links, root.Keys, a)
    {
      GroupMembers(root, root.Keys, components, a, b);
      if b in root {
        SameRootIffConnected(root, links, a, b);
      }
    }
  }

  /** A group of one is a component of one. */
  lemma SmallGroup(members: seq<string>, component: set<string>, a: string)
    requires (forall b :: b in members <==> b in component) && a in members
    requires forall i, j :: 0 <= i < j < |members| ==> members[i] != members[j]
    ensures |members| < 2 <==> component == {a}
    ensures (set m | m in members) == component
  {
    if |members| < 2 {
      assert members == [a];
    } else {
      assert members[0] in component && members[1] in component;
    }
  }

  /** The chain id of every member of every component. */
  method LabelComponents(components: map<string, seq<string>>, ghost root: Forest<string>,
                         ghost links: set<Link<string>>)
    returns (chain: map<string, Option<string>>)
    requires Computes(root, links) && IsGrouping(root, root.Keys, components)
    ensures forall a :: a in root ==> a in chain && IsChainId(links, root.Keys, a, chain[a])
  {
    hide Computes, IsChainId;
    chain := map[];
    var pending := components.Keys;
    forall a | a in root
      ensures root[a] in components
    {
      assert root[a] in components;
    }
    while pending != {}
      invariant pending <= components.Keys
      invariant forall a :: a in root && root[a] !in pending ==> a in chain && IsChainId(links, root.Keys, a, chain[a])
      decreases pending
    {
      var c :| c in pending;
      var members := components[c];
      var id := None;
      if |members| >= 2 {
        var least := LeastOf(members);
        id := Some(least);
      }
      forall a | a in root && root[a] == c
        ensures a in members && IsChainId(links, root.Keys, a, id)
      {
        GroupIsComponent(root, links, components, a);
        SmallGroup(members, Component(links, root.Keys, a), a);
        ChainIdOf(links, root.Keys, a, id);
      }
      ghost var before := chain;
      chain := LabelAll(chain, members, id);
      LabelKeeps(root, components, c, before, chain);
      pending := pending - {c};
    }
  }

  /** Labelling one group touches no lot of another group. */
  lemma LabelKeeps(root: Forest<string>, components: map<string, seq<string>>, c: string,
                   before: map<string, Option<string>>, after: map<string, Option<string>>)
    requires IsGrouping(root, root.Keys, components) && c in components
    requires forall m :: m in before && m !in components[c] ==> m in after && after[m] == before[m]
    ensures forall a :: a in root && root[a] != c && a in before ==> a in after && after[a] == before[a]
  {
  }

  lemma ChainIdOf(links: set<Link<string>>, ids: set<string>, a: string, id: Option<string>)
    requires if Component(links, ids, a) == {a} then id == None
             else id.Some? && IsLeast(id.value, Component(links, ids, a))
    ensures IsChainId(links, ids, a, id)
  {
  }

  /** Give every member the same label. */
  method LabelAll(chain: map<string, Option<string>>, members: seq<string>, id: Option<string>)
    returns (labelled: map<string, Option<string>>)
    ensures forall m :: m in members ==> m in labelled && labelled[m] == id
    ensures forall m :: m in chain && m !in members ==> m in labelled && labelled[m] == chain[m]
  {
    labelled := chain;
    for k := 0 to |members|
      invariant forall i :: 0 <= i < k ==> members[i] in labelled && labelled[members[i]] == id
      invariant forall m :: m in chain && m !in members ==> m in labelled && labelled[m] == chain[m]
    {
      labelled := labelled[members[k] := id];
    }
  }

  lemma AllKnown(lots: seq<Lot>, sells: seq<SellEvent>)
    ensures Unknown(lots, sells) == {} <==> forall k :: 0 <= k < |sells| ==> sells[k].lotId in ById(lots)
  {
    hide ById;
    if k :| 0 <= k < |sells| && sells[k].lotId !in ById(lots) {
      assert sells[k].lotId in Unknown(lots, sells);
    }
  }

  method AssignChains(lots: seq<Lot>, groups: Groups, sells: seq<SellEvent>, window: int) returns (r: ChainResult)
    ensures IsAssignment(lots, groups, sells, window, r)
  {
    hide IsForest, Computes, ById, IsChainId, Unknown, LinksOfSell;
    if |lots| == 0 {
      return Assigned([]);
    }
    var unknown := Unknown(lots, sells);
    if unknown != {} {
      return UnknownSells(unknown);
    }
    AllKnown(lots, sells);
    var ids := ById(lots).Keys;
    var uf := new Finder<string>(ids);
    IdentityComputesNothing(ids);
    var k := 0;
    while k < |sells|
      invariant 0 <= k <= |sells|
      invariant uf.Valid() && uf.root.Keys == ids && Computes(uf.root, LinksOf(lots, groups, sells[..k], window))
      invariant fresh(uf)
    {
      AddLinks(uf, lots, groups, sells[k], window, LinksOf(lots, groups, sells[..k], window));
      assert sells[..k + 1][..k] == sells[..k];
      k := k + 1;
    }
    assert sells[..|sells|] == sells;
    var components := GroupByRoot(uf, ids);
    var chain := LabelComponents(components, uf.root, LinksOf(lots, groups, sells, window));
    forall i | 0 <= i < |lots|
      ensures lots[i].lotId in chain
    {
      ByIdHasAll(lots, i);
    }
    r := Assigned(seq(|lots|, i requires 0 <= i < |lots| && lots[i].lotId in chain =>
                        lots[i].(washSaleChainId := chain[lots[i].lotId])));
    forall i | 0 <= i < |lots|
      ensures IsChainId(LinksOf(lots, groups, sells, window), ById(lots).Keys, lots[i].lotId, r.lots[i].washSaleChainId)
    {
      ByIdHasAll(lots, i);
      assert lots[i].lotId in uf.root;
    }
    AssignmentFrom(lots, groups, sells, window, r.lots);
  }

  lemma AssignmentFrom(lots: seq<Lot>, groups: Groups, sells: seq<SellEvent>, window: int, out: seq<Lot>)
    requires |lots| > 0 && Unknown(lots, sells) == {} && |out| == |lots|
    requires forall i :: 0 <= i < |lots| ==>
               && out[i] == lots[i].(washSaleChainId := out[i].washSaleChainId)
               && IsChainId(LinksOf(lots, groups, sells, window), ById(lots).Keys, lots[i].lotId,
                            out[i].washSaleChainId)
    ensures IsAssignment(lots, groups, sells, window, Assigned(out))
  {
    hide IsChainId, LinksOf, ById;
  }

  // ----- what the assignment means

  /** The specification pins the result: two assignments of one input are equal. */
  lemma AssignmentUnique(lots: seq<Lot>, groups: Groups, sells: seq<SellEvent>, window: int, r1: ChainResult,
                         r2: ChainResult)
    requires IsAssignment(lots, groups, sells, window, r1) && IsAssignment(lots, groups, sells, window, r2)
    ensures r1 == r2
  {
    hide LinksOf, ById, IsChainId, Unknown;
    if |lots| > 0 && Unknown(lots, sells) == {} {
      forall i | 0 <= i < |lots|
        ensures r1.lots[i] == r2.lots[i]
      {
        ChainIdUnique(LinksOf(lots, groups, sells, window), ById(lots).Keys, lots[i].lotId,
                      r1.lots[i].washSaleChainId, r2.lots[i].washSaleChainId);
      }
    }
  }

  lemma ChainIdUnique(links: set<Link<string>>, ids: set<string>, a: string, x: Option<string>, y: Option<string>)
    requires IsChainId(links, ids, a, x) && IsChainId(links, ids, a, y)
    ensures x == y
  {
    hide Connected, Component, IsLeast;
    if Component(links, ids, a) != {a} {
      LeastUnique(x.value, y.value, Component(links, ids, a));
    }
  }

  lemma ConnectedComponentsEqual(links: set<Link<string>>, ids: set<string>, a: string, b: string)
    requires Connected(links, a, b)
    ensures Component(links, ids, a) == Component(links, ids, b)
  {
    hide Connected;
    ConnectedSymmetric(links, a, b);
    forall c | c in ids
      ensures Connected(links, a, c) <==> Connected(links, b, c)
    {
      if Connected(links, a, c) {
        ConnectedTransitive(links, b, a, c);
      }
      if Connected(links, b, c) {
        ConnectedTransitive(links, a, b, c);
      }
    }
  }

  /** Two different lots share a chain id exactly when they are connected by loss-sell links. */
  lemma SharedIdIffConnected(links: set<Link<string>>, ids: set<string>, a: string, b: string, x: Option<string>,
                             y: Option<string>)
    requires a in ids && b in ids && a != b && IsChainId(links, ids, a, x) && IsChainId(links, ids, b, y)
    ensures x.Some? && x == y <==> Connected(links, a, b)
  {
    hide Connected, IsLeast;
    ConnectedReflexive(links, a);
    ConnectedReflexive(links, b);
    if Connected(links, a, b) {
      ConnectedComponentsEqual(links, ids, a, b);
      assert b in Component(links, ids, a) && a in Component(links, ids, b);
      LeastUnique(x.value, y.value, Component(links, ids, a));
    }
    if x.Some? && x == y {
      LeastInside(x.value, Component(links, ids, a));
      LeastInside(y.value, Component(links, ids, b));
      ConnectedSymmetric(links, b, y.value);
      ConnectedTransitive(links, a, x.value, b);
    }
  }

  lemma LeastInside(m: string, ids: set<string>)
    requires IsLeast(m, ids)
    ensures m in ids
  {
  }

  /** Every link joins two different known lots. */
  ghost predicate ProperLinks(links: set<Link<string>>, ids: set<string>) {
    forall a, b :: (a, b) in links ==> a in ids && b in ids && a != b
  }

  lemma {:induction false} LinksToProper(lots: seq<Lot>, k: nat, sold: Lot, date: int, groups: Groups, window: int)
    requires k <= |lots| && sold.lotId in ById(lots)
    ensures ProperLinks(LinksTo(lots, k, sold, date, groups, window), ById(lots).Keys)
  {
    hide ById;
    if k > 0 {
      LinksToProper(lots, k - 1, sold, date, groups, window);
      ByIdHasAll(lots, k - 1);
    }
  }

  lemma {:induction false} LinksProper(lots: seq<Lot>, groups: Groups, sells: seq<SellEvent>, window: int)
    ensures ProperLinks(LinksOf(lots, groups, sells, window), ById(lots).Keys)
  {
    hide ById, LinksTo;
    if |sells| > 0 {
      LinksProper(lots, groups, sells[..|sells| - 1], window);
      var s := sells[|sells| - 1];
      if s.lotId in ById(lots) {
        var i := ByIdFrom(lots, s.lotId);
        LinksToProper(lots, |lots|, ById(lots)[s.lotId], s.sellDate, groups, window);
      }
    }
  }

  /** A lot keeps no chain id exactly when no loss-sell link touches it. */
  lemma NoIdIffUnlinked(links: set<Link<string>>, ids: set<string>, a: string, x: Option<string>)
    requires ProperLinks(links, ids) && a in ids && IsChainId(links, ids, a, x)
    ensures x.None? <==> forall b :: !Adjacent(links, a, b)
  {
    ConnectedReflexive(links, a);
    if b :| Adjacent(links, a, b) {
      ConnectedByLink(links, a, b);
      assert b in Component(links, ids, a);
    } else {
      forall b | b in Component(links, ids, a)
        ensures b == a
      {
        var p :| Path(links, p) && p[0] == a && p[|p| - 1] == b;
        FirstStep(links, p);
      }
      assert Component(links, ids, a) == {a};
    }
  }

  /** Lot by lot: a shared chain id means connected by loss-sell links, no chain id means untouched by them. */
  lemma ChainsAreClosure(lots: seq<Lot>, groups: Groups, sells: seq<SellEvent>, window: int, r: ChainResult, i: nat,
                         j: nat)
    requires IsAssignment(lots, groups, sells, window, r) && r.Assigned? && i < |lots| && j < |lots|
    ensures |r.lots| == |lots|
    ensures var links := LinksOf(lots, groups, sells, window);
            && (lots[i].lotId != lots[j].lotId ==>
                  (r.lots[i].washSaleChainId.Some? && r.lots[i].washSaleChainId == r.lots[j].washSaleChainId
                   <==> Connected(links, lots[i].lotId, lots[j].lotId)))
            && (r.lots[i].washSaleChainId.None? <==> forall b :: !Adjacent(links, lots[i].lotId, b))
  {
    hide LinksOf, ById, IsChainId, Connected, Unknown, Adjacent;
    var links, ids := LinksOf(lots, groups, sells, window), ById(lots).Keys;
    ByIdHasAll(lots, i);
    ByIdHasAll(lots, j);
    LinksProper(lots, groups, sells, window);
    NoIdIffUnlinked(links, ids, lots[i].lotId, r.lots[i].washSaleChainId);
    if lots[i].lotId != lots[j].lotId {
      SharedIdIffConnected(links, ids, lots[i].lotId, lots[j].lotId, r.lots[i].washSaleChainId,
                           r.lots[j].washSaleChainId);
    }
  }

  lemma {:induction false} LinksOfMember(lots: seq<Lot>, groups: Groups, sells: seq<SellEvent>, window: int,
                                         e: Link<string>)
    ensures e in LinksOf(lots, groups, sells, window)
       <==> exists k :: 0 <= k < |sells| && e in LinksOfSell(lots, groups, sells[k], window)
  {
    hide LinksOfSell;
    if |sells| > 0 {
      var n := |sells| - 1;
      LinksOfMember(lots, groups, sells[..n], window, e);
      if e in LinksOf(lots, groups, sells[..n], window) {
        var k :| 0 <= k < n && e in LinksOfSell(lots, groups, sells[..n][k], window);
        assert e in LinksOfSell(lots, groups, sells[k], window);
      }
      if k :| 0 <= k < |sells| && e in LinksOfSell(lots, groups, sells[k], window) {
        if k < n {
          assert e in LinksOfSell(lots, groups, sells[..n][k], window);
        }
      }
    }
  }

  ghost predicate SameSells(sells: seq<SellEvent>, others: seq<SellEvent>) {
    forall s :: s in sells <==> s in others
  }

  lemma LinksOfSubset(lots: seq<Lot>, groups: Groups, sells: seq<SellEvent>, others: seq<SellEvent>, window: int)
    requires forall s :: s in sells ==> s in others
    ensures LinksOf(lots, groups, sells, window) <= LinksOf(lots, groups, others, window)
  {
    hide LinksOfSell, LinksOf;
    forall e | e in LinksOf(lots, groups, sells, window)
      ensures e in LinksOf(lots, groups, others, window)
    {
      LinksOfMember(lots, groups, sells, window, e);
      LinksOfMember(lots, groups, others, window, e);
      var k :| 0 <= k < |sells| && e in LinksOfSell(lots, groups, sells[k], window);
      assert sells[k] in others;
    }
  }

  /** Neither the order of the sells nor repeating one changes the assignment. */
  lemma SellOrderIrrelevant(lots: seq<Lot>, groups: Groups, sells: seq<SellEvent>, others: seq<SellEvent>, window: int,
                            r: ChainResult)
    requires SameSells(sells, others) && IsAssignment(lots, groups, sells, window, r)
    ensures IsAssignment(lots, groups, others, window, r)
  {
    LinksOfSubset(lots, groups, sells, others, window);
    LinksOfSubset(lots, groups, others, sells, window);
    assert LinksOf(lots, groups, sells, window) == LinksOf(lots, groups, others, window);
    hide ById, LinksOf, IsChainId;
    UnknownSubset(lots, sells, others);
    UnknownSubset(lots, others, sells);
  }

  lemma UnknownSubset(lots: seq<Lot>, sells: seq<SellEvent>, others: seq<SellEvent>)
    requires forall s :: s in sells ==> s in others
    ensures Unknown(lots, sells) <= Unknown(lots, others)
  {
    hide ById;
    forall id | id in Unknown(lots, sells)
      ensures id in Unknown(lots, others)
    {
      var k :| 0 <= k < |sells| && sells[k].lotId !in ById(lots) && sells[k].lotId == id;
      assert sells[k] in others;
      var j :| 0 <= j < |others| && others[j] == sells[k];
    }
  }

  ghost predicate SameButChains(lots: seq<Lot>, others: seq<Lot>) {
    |lots| == |others| && forall i :: 0 <= i < |lots| ==>
        others[i] == lots[i].(washSaleChainId := others[i].washSaleChainId)
  }

  lemma {:induction false} ByIdSameButChains(lots: seq<Lot>, others: seq<Lot>)
    requires SameButChains(lots, others)
    ensures ById(lots).Keys == ById(others).Keys
    ensures forall k :: k in ById(lots) && k in ById(others) ==>
              ById(others)[k] == ById(lots)[k].(washSaleChainId := ById(others)[k].washSaleChainId)
  {
    if |lots| > 0 {
      ByIdSameButChains(lots[..|lots| - 1], others[..|lots| - 1]);
    }
  }

  lemma {:induction false} LinksToIgnoresChains(lots: seq<Lot>, others: seq<Lot>, k: nat, sold: Lot, sold': Lot,
                                                date: int,
                                                groups: Groups, window: int)
    requires SameButChains(lots, others) && k <= |lots| && sold' == sold.(washSaleChainId := sold'.washSaleChainId)
    ensures LinksTo(lots, k, sold, date, groups, window) == LinksTo(others, k, sold', date, groups, window)
  {
    if k > 0 {
      LinksToIgnoresChains(lots, others, k - 1, sold, sold', date, groups, window);
    }
  }

  lemma {:induction false} LinksIgnoreChains(lots: seq<Lot>, others: seq<Lot>, groups: Groups, sells: seq<SellEvent>,
                                             window: int)
    requires SameButChains(lots, others)
    ensures LinksOf(lots, groups, sells, window) == LinksOf(others, groups, sells, window)
  {
    hide LinksTo, ById;
    if |sells| > 0 {
      LinksIgnoreChains(lots, others, groups, sells[..|sells| - 1], window);
      var s := sells[|sells| - 1];
      ByIdSameButChains(lots, others);
      assert s.lotId in ById(lots).Keys <==> s.lotId in ById(others).Keys;
      if s.lotId in ById(lots) {
        LinksToIgnoresChains(lots, others, |lots|, ById(lots)[s.lotId], ById(others)[s.lotId], s.sellDate, groups,
                             window);
      }
    }
  }

  /** Assigning again, starting from the labelled lots, changes nothing. */
  lemma AssignmentIdempotent(lots: seq<Lot>, groups: Groups, sells: seq<SellEvent>, window: int, r: ChainResult)
    requires IsAssignment(lots, groups, sells, window, r) && r.Assigned?
    ensures IsAssignment(r.lots, groups, sells, window, r)
  {
    hide LinksOf, ById, IsChainId;
    if |lots| > 0 {
      LinksIgnoreChains(lots, r.lots, groups, sells, window);
      ByIdSameButChains(lots, r.lots);
      UnknownByKeys(lots, r.lots, sells);
    }
  }

  lemma UnknownByKeys(lots: seq<Lot>, others: seq<Lot>, sells: seq<SellEvent>)
    requires ById(lots).Keys == ById(others).Keys
    ensures Unknown(lots, sells) == Unknown(others, sells)
  {
  }

  // ----- the lots linked by one sell

  method LinkedLotIdsForSell(sold: Lot, lots: seq<Lot>, groups: Groups, date: int, window: int)
    returns (linked: set<string>)
    ensures linked == LinkedIds(sold, lots, groups, date, window)
  {
    linked := {sold.lotId};
    for k := 0 to |lots|
      invariant linked == LinkedIds(sold, lots[..k], groups, date, window)
    {
      assert lots[..k + 1][..k] == lots[..k];
      if Washes(sold, date, lots[k], groups, window) {
        linked := linked + {lots[k].lotId};
      }
    }
    assert lots[..|lots|] == lots;
  }

  function LinkedIds(sold: Lot, lots: seq<Lot>, groups: Groups, date: int, window: int): set<string> {
    if |lots| == 0 then {sold.lotId}
    else
      var last := lots[|lots| - 1];
      LinkedIds(sold, lots[..|lots| - 1], groups, date, window)
        + if Washes(sold, date, last, groups, window) then {last.lotId} else {}
  }

  /** The oracle and the chain links agree: a loss sell links its lot to exactly the other linked ids. */
  lemma {:induction false} LinkedIdsAreLinks(sold: Lot, lots: seq<Lot>, k: nat, groups: Groups, date: int, window: int,
                                             b: string)
    requires k <= |lots|
    ensures (sold.lotId, b) in LinksTo(lots, k, sold, date, groups, window)
       <==> b in LinkedIds(sold, lots[..k], groups, date, window) && b != sold.lotId
  {
    if k > 0 {
      LinkedIdsAreLinks(sold, lots, k - 1, groups, date, window, b);
      assert lots[..k][..k - 1] == lots[..k - 1];
    }
  }
}
