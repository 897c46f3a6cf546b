/** Stock splits on the lot ledger (data/ledger/corporate_actions.py), in exact arithmetic. */
module Splits {
  import opened Vectors
  import opened Sequences
  import opened Lots
  import opened Reconciliation
  import opened ReconciliationTheorems

  /** New shares per existing share of one security. */
  datatype SplitAction = SplitAction(securityId: string, ratio: real)

  datatype SplitError = RatioNotPositive | QuantityNotPositive

  datatype Basis = Basis(quantity: real, cost: real) | BasisRefused(error: SplitError)

  datatype SplitResult = Split(lots: seq<Lot>) | Refused(error: SplitError)

  function OracleBasis(quantity: real, cost: real, ratio: real): Basis {
    if ratio <= 0.0 then BasisRefused(RatioNotPositive)
    else if Mul(quantity, ratio) <= 0.0 then BasisRefused(QuantityNotPositive)
    else Basis(Mul(quantity, ratio), Div(cost, ratio))
  }

  /** The lots after one split; the first lot that cannot be split decides the error. */
  function SplitOne(lots: seq<Lot>, action: SplitAction): SplitResult {
    if action.ratio <= 0.0 then Refused(RatioNotPositive)
    else if |lots| == 0 then Split([])
    else
      match SplitOne(lots[..|lots| - 1], action)
      case Refused(e) => Refused(e)
      case Split(done) =>
        var lot := lots[|lots| - 1];
        if lot.securityId != action.securityId then Split(done + [lot])
        else
          match OracleBasis(lot.quantity, lot.costBasisPerShare, action.ratio)
          case BasisRefused(e) => Refused(e)
          case Basis(q, c) => Split(done + [lot.(quantity := q, costBasisPerShare := c)])
  }

  function SplitMany(lots: seq<Lot>, actions: seq<SplitAction>): SplitResult {
    if |actions| == 0 then Split(lots)
    else
      match SplitMany(lots, actions[..|actions| - 1])
      case Refused(e) => Refused(e)
      case Split(done) => SplitOne(done, actions[|actions| - 1])
  }

  lemma {:induction false} RefusedStays(lots: seq<Lot>, k: nat, action: SplitAction)
    requires k <= |lots| && SplitOne(lots[..k], action).Refused?
    ensures SplitOne(lots, action) == SplitOne(lots[..k], action)
    decreases |lots|
  {
    hide OracleBasis;
    if k < |lots| {
      assert lots[..|lots| - 1][..k] == lots[..k];
      RefusedStays(lots[..|lots| - 1], k, action);
    } else {
      assert lots[..k] == lots;
    }
  }

  method ApplyStockSplit(lots: seq<Lot>, action: SplitAction) returns (r: SplitResult)
    ensures r == SplitOne(lots, action)
  {
    hide OracleBasis;
    if action.ratio <= 0.0 {
      return Refused(RatioNotPositive);
    }
    var updated := [];
    for k := 0 to |lots|
      invariant SplitOne(lots[..k], action) == Split(updated)
    {
      assert lots[..k + 1][..k] == lots[..k];
      var lot := lots[k];
      if lot.securityId != action.securityId {
        updated := updated + [lot];
      } else {
        var basis := OracleBasis(lot.quantity, lot.costBasisPerShare, action.ratio);
        if basis.BasisRefused? {
          RefusedStays(lots, k + 1, action);
          return Refused(basis.error);
        }
        updated := updated + [lot.(quantity := basis.quantity, costBasisPerShare := basis.cost)];
      }
    }
    assert lots[..|lots|] == lots;
    r := Split(updated);
  }

  lemma {:induction false} ManyRefusedStays(lots: seq<Lot>, actions: seq<SplitAction>, k: nat)
    requires k <= |actions| && SplitMany(lots, actions[..k]).Refused?
    ensures SplitMany(lots, actions) == SplitMany(lots, actions[..k])
    decreases |actions|
  {
    hide SplitOne;
    if k < |actions| {
      assert actions[..|actions| - 1][..k] == actions[..k];
      ManyRefusedStays(lots, actions[..|actions| - 1], k);
    } else {
      assert actions[..k] == actions;
    }
  }

  method ApplyStockSplits(lots: seq<Lot>, actions: seq<SplitAction>) returns (r: SplitResult)
    ensures r == SplitMany(lots, actions)
  {
    hide SplitOne;
    r := Split(lots);
    for k := 0 to |actions|
      invariant r.Split? && SplitMany(lots, actions[..k]) == r
    {
      assert actions[..k + 1][..k] == actions[..k];
      r := ApplyStockSplit(r.lots, actions[k]);
      if r.Refused? {
        ManyRefusedStays(lots, actions, k + 1);
        return;
      }
    }
    assert actions[..|actions|] == actions;
  }

  // ----- the closed form

  function Factor(action: SplitAction, security: string): real {
    if action.securityId == security then action.ratio else 1.0
  }

  /** The product of a security's ratios. */
  function Product(actions: seq<SplitAction>, security: string): real {
    if |actions| == 0 then 1.0
    else Mul(Product(actions[..|actions| - 1], security), Factor(actions[|actions| - 1], security))
  }

  ghost predicate PositiveRatios(actions: seq<SplitAction>) {
    forall i :: 0 <= i < |actions| ==> actions[i].ratio > 0.0
  }

  /** Every ratio is positive, and so is the quantity of every lot some split touches. */
  ghost predicate Legal(lots: seq<Lot>, actions: seq<SplitAction>) {
    && PositiveRatios(actions)
    && forall i, j :: 0 <= i < |lots| && 0 <= j < |actions| && actions[j].securityId == lots[i].securityId ==>
         lots[i].quantity > 0.0
  }

  function Scaled(lot: Lot, p: real): Lot
    requires p != 0.0
  {
    lot.(quantity := Mul(lot.quantity, p), costBasisPerShare := Div(lot.costBasisPerShare, p))
  }

  lemma PositiveProduct(a: real, b: real)
    requires b > 0.0
    ensures Mul(a, b) > 0.0 <==> a > 0.0
  {
  }

  lemma {:induction false} ProductPositive(actions: seq<SplitAction>, security: string)
    requires PositiveRatios(actions)
    ensures Product(actions, security) > 0.0
  {
    hide Mul;
    if |actions| > 0 {
      ProductPositive(actions[..|actions| - 1], security);
      PositiveProduct(Product(actions[..|actions| - 1], security), Factor(actions[|actions| - 1], security));
    }
  }

  /** Scaling by p and then by q is scaling by their product. */
  lemma ScaledTwice(lot: Lot, p: real, q: real)
    requires p > 0.0 && q > 0.0
    ensures Mul(p, q) != 0.0 && Scaled(Scaled(lot, p), q) == Scaled(lot, Mul(p, q))
  {
  }

  lemma ScaledByOne(lot: Lot)
    ensures Scaled(lot, 1.0) == lot
  {
  }

  /** One split succeeds exactly on a legal input, and scales each lot by its factor. */
  lemma {:induction false} OneForm(lots: seq<Lot>, action: SplitAction)
    ensures SplitOne(lots, action).Split?
       <==> && action.ratio > 0.0
            && forall i :: 0 <= i < |lots| && lots[i].securityId == action.securityId ==> lots[i].quantity > 0.0
    ensures SplitOne(lots, action).Split? ==>
              && |SplitOne(lots, action).lots| == |lots|
              && forall i :: 0 <= i < |lots| ==>
                   SplitOne(lots, action).lots[i] == Scaled(lots[i], Factor(action, lots[i].securityId))
  {
    hide Mul, Div;
    if |lots| > 0 {
      var n := |lots| - 1;
      OneForm(lots[..n], action);
      if action.ratio > 0.0 {
        PositiveProduct(lots[n].quantity, action.ratio);
        ScaledByOne(lots[n]);
      }
    }
  }

  /**
   * A sequence of splits succeeds exactly when every ratio is positive and every touched lot has a positive quantity;
   * then each lot is its old self with the quantity times, and the per-share cost over, its security's ratio product.
   */
  lemma {:induction false} SplitForm(lots: seq<Lot>, actions: seq<SplitAction>)
    ensures SplitMany(lots, actions).Split? <==> Legal(lots, actions)
    ensures SplitMany(lots, actions).Split? ==>
              && |SplitMany(lots, actions).lots| == |lots|
              && forall i :: 0 <= i < |lots| ==>
                   && Product(actions, lots[i].securityId) > 0.0
                   && SplitMany(lots, actions).lots[i] == Scaled(lots[i], Product(actions, lots[i].securityId))
  {
    hide Mul, Div, SplitOne, Scaled, Product;
    if |actions| == 0 {
      forall i | 0 <= i < |lots|
        ensures Product(actions, lots[i].securityId) == 1.0 && Scaled(lots[i], 1.0) == lots[i]
      {
        EmptyProduct(actions, lots[i].securityId);
        ScaledByOne(lots[i]);
      }
    } else {
      var n := |actions| - 1;
      SplitForm(lots, actions[..n]);
      if Legal(lots, actions[..n]) {
        StepForm(lots, actions, n);
      } else {
        LegalPrefix(lots, actions, n);
      }
    }
  }

  lemma EmptyProduct(actions: seq<SplitAction>, security: string)
    requires |actions| == 0
    ensures Product(actions, security) == 1.0
  {
  }

  lemma LegalPrefix(lots: seq<Lot>, actions: seq<SplitAction>, n: nat)
    requires n <= |actions|
    ensures Legal(lots, actions) ==> Legal(lots, actions[..n])
  {
  }

  /** The last split of a sequence whose first part succeeded. */
  lemma StepForm(lots: seq<Lot>, actions: seq<SplitAction>, n: nat)
    requires n + 1 == |actions| && Legal(lots, actions[..n])
    requires var before := SplitMany(lots, actions[..n]);
             && before.Split? && |before.lots| == |lots|
             && forall i :: 0 <= i < |lots| ==>
                  && Product(actions[..n], lots[i].securityId) > 0.0
                  && before.lots[i] == Scaled(lots[i], Product(actions[..n], lots[i].securityId))
    ensures SplitMany(lots, actions) == SplitOne(SplitMany(lots, actions[..n]).lots, actions[n])
    ensures SplitMany(lots, actions).Split? <==> Legal(lots, actions)
    ensures SplitMany(lots, actions).Split? ==>
              && |SplitMany(lots, actions).lots| == |lots|
              && forall i :: 0 <= i < |lots| ==>
                   && Product(actions, lots[i].securityId) > 0.0
                   && SplitMany(lots, actions).lots[i] == Scaled(lots[i], Product(actions, lots[i].securityId))
  {
    hide Mul, Div, SplitOne, Product;
    var done := SplitMany(lots, actions[..n]).lots;
    var last := actions[n];
    OneForm(done, last);
    forall i | 0 <= i < |lots|
      ensures done[i].securityId == lots[i].securityId
      ensures done[i].quantity > 0.0 <==> lots[i].quantity > 0.0
      ensures Factor(last, lots[i].securityId) > 0.0 ==>
                && Product(actions, lots[i].securityId) > 0.0
                && Scaled(done[i], Factor(last, lots[i].securityId))
                     == Scaled(lots[i], Product(actions, lots[i].securityId))
    {
      var security := lots[i].securityId;
      ProductStep(actions, n, security);
      PositiveProduct(lots[i].quantity, Product(actions[..n], security));
      if Factor(last, security) > 0.0 {
        PositiveProduct(Product(actions[..n], security), Factor(last, security));
        ScaledTwice(lots[i], Product(actions[..n], security), Factor(last, security));
      }
    }
    LegalStep(lots, actions, n);
  }

  lemma ProductStep(actions: seq<SplitAction>, n: nat, security: string)
    requires n + 1 == |actions|
    ensures Product(actions, security) == Mul(Product(actions[..n], security), Factor(actions[n], security))
  {
  }

  lemma LegalStep(lots: seq<Lot>, actions: seq<SplitAction>, n: nat)
    requires n + 1 == |actions| && Legal(lots, actions[..n])
    ensures Legal(lots, actions)
       <==> && actions[n].ratio > 0.0
            && forall i :: 0 <= i < |lots| && lots[i].securityId == actions[n].securityId ==> lots[i].quantity > 0.0
  {
  }

  // ----- what splits conserve

  lemma ScaledBasis(lot: Lot, p: real)
    requires p > 0.0
    ensures Mul(Scaled(lot, p).quantity, Scaled(lot, p).costBasisPerShare) == Mul(lot.quantity, lot.costBasisPerShare)
  {
  }

  /** No sequence of splits changes any lot's total cost basis, its identity or its dates. */
  lemma BasisKept(lots: seq<Lot>, actions: seq<SplitAction>, i: nat)
    requires SplitMany(lots, actions).Split? && i < |lots|
    ensures var after := SplitMany(lots, actions).lots;
            && |after| == |lots|
            && Mul(after[i].quantity, after[i].costBasisPerShare) == Mul(lots[i].quantity, lots[i].costBasisPerShare)
            && after[i] == lots[i].(quantity := after[i].quantity, costBasisPerShare := after[i].costBasisPerShare)
  {
    hide Mul, SplitMany, Product;
    SplitForm(lots, actions);
    ScaledBasis(lots[i], Product(actions, lots[i].securityId));
  }

  lemma MulDistributes(a: real, b: real, c: real)
    ensures Mul(a + b, c) == Mul(a, c) + Mul(b, c) && Mul(0.0, c) == 0.0
  {
  }

  /** Lots scaled by their security's product have position totals scaled by it. */
  lemma {:induction false} ScaledTotals(lots: seq<Lot>, after: seq<Lot>, key: Key, p: real)
    requires |after| == |lots| && p != 0.0
    requires forall i :: 0 <= i < |lots| ==> LotKey(after[i]) == LotKey(lots[i])
    requires forall i :: 0 <= i < |lots| && LotKey(lots[i]) == key ==> after[i].quantity == Mul(lots[i].quantity, p)
    ensures QuantityOf(after, key) == Mul(QuantityOf(lots, key), p)
  {
    hide Mul;
    if |lots| == 0 {
      MulDistributes(0.0, 0.0, p);
    } else {
      var n := |lots| - 1;
      ScaledTotals(lots[..n], after[..n], key, p);
      MulDistributes(QuantityOf(lots[..n], key), if LotKey(lots[n]) == key then lots[n].quantity else 0.0, p);
    }
  }

  /** Every (account, security) total of the ledger is scaled by the product of that security's ratios. */
  lemma TotalsScale(lots: seq<Lot>, actions: seq<SplitAction>, key: Key)
    requires SplitMany(lots, actions).Split?
    ensures QuantityOf(SplitMany(lots, actions).lots, key) == Mul(QuantityOf(lots, key), Product(actions, key.1))
  {
    hide Mul, Div, SplitMany, Product, QuantityOf;
    SplitForm(lots, actions);
    ProductPositive(actions, key.1);
    ScaledTotals(lots, SplitMany(lots, actions).lots, key, Product(actions, key.1));
  }

  // ----- order

  lemma MulThree(a: real, b: real, c: real)
    ensures Mul(Mul(a, b), c) == Mul(Mul(a, c), b)
  {
  }

  /** A factor may be taken out of the product at any place. */
  lemma {:induction false} ProductWithout(actions: seq<SplitAction>, i: nat, security: string)
    requires i < |actions|
    ensures Product(actions, security) == Mul(Product(Without(actions, i), security), Factor(actions[i], security))
  {
    hide Mul;
    var n := |actions| - 1;
    if i < n {
      ProductWithout(actions[..n], i, security);
      assert Without(actions, i)[..n - 1] == Without(actions[..n], i);
      MulThree(Product(Without(actions[..n], i), security), Factor(actions[i], security), Factor(actions[n], security));
    } else {
      assert Without(actions, i) == actions[..n];
    }
  }

  lemma {:induction false} ProductPermutes(actions: seq<SplitAction>, others: seq<SplitAction>, security: string)
    requires multiset(actions) == multiset(others)
    ensures Product(actions, security) == Product(others, security)
    decreases |actions|
  {
    hide Mul;
    if |actions| == 0 {
      NothingElse(actions, others);
    } else {
      assert actions[0] in multiset(actions);
      var i := FindIn(actions[0], others);
      MultisetWithout(actions, 0);
      MultisetWithout(others, i);
      ProductPermutes(Without(actions, 0), Without(others, i), security);
      ProductWithout(actions, 0, security);
      ProductWithout(others, i, security);
    }
  }

  lemma NothingElse<T>(a: seq<T>, b: seq<T>)
    requires |a| == 0 && multiset(a) == multiset(b)
    ensures b == a
  {
  }

  lemma LegalPermutes(lots: seq<Lot>, actions: seq<SplitAction>, others: seq<SplitAction>)
    requires multiset(actions) == multiset(others) && Legal(lots, actions)
    ensures Legal(lots, others)
  {
    forall j | 0 <= j < |others|
      ensures others[j] in actions
    {
      assert others[j] in multiset(others);
    }
  }

  /** The order of the splits does not matter, neither to success nor to the result. */
  lemma SplitsCommute(lots: seq<Lot>, actions: seq<SplitAction>, others: seq<SplitAction>)
    requires multiset(actions) == multiset(others)
    ensures SplitMany(lots, actions).Split? <==> SplitMany(lots, others).Split?
    ensures SplitMany(lots, actions).Split? ==> SplitMany(lots, actions) == SplitMany(lots, others)
  {
    hide Mul, Div, SplitMany, Product, Legal, Scaled;
    SplitForm(lots, actions);
    SplitForm(lots, others);
    if Legal(lots, actions) {
      LegalPermutes(lots, actions, others);
      forall i | 0 <= i < |lots|
        ensures SplitMany(lots, actions).lots[i] == SplitMany(lots, others).lots[i]
      {
        ProductPermutes(actions, others, lots[i].securityId);
      }
    } else if Legal(lots, others) {
      LegalPermutes(lots, others, actions);
    }
  }

  lemma Reciprocal(r: real)
    requires r > 0.0
    ensures Div(1.0, r) > 0.0 && Mul(r, Div(1.0, r)) == 1.0
  {
  }

  lemma ReciprocalProduct(security: string, r: real, other: string)
    requires r > 0.0
    ensures Product([SplitAction(security, r), SplitAction(security, Div(1.0, r))], other) == 1.0
  {
    hide Div;
    Reciprocal(r);
    var both := [SplitAction(security, r), SplitAction(security, Div(1.0, r))];
    assert both[..1] == [SplitAction(security, r)] && both[..1][..0] == [];
    assert Product(both[..1], other) == Factor(both[0], other);
  }

  /** A split undone by its reciprocal restores the lots. */
  lemma SplitThenReverse(lots: seq<Lot>, security: string, r: real)
    requires r > 0.0
    requires SplitMany(lots, [SplitAction(security, r)]).Split?
    ensures SplitMany(lots, [SplitAction(security, r), SplitAction(security, Div(1.0, r))]) == Split(lots)
  {
    hide Mul, Div, SplitMany, Scaled;
    var once := [SplitAction(security, r)];
    var both := [SplitAction(security, r), SplitAction(security, Div(1.0, r))];
    Reciprocal(r);
    SplitForm(lots, once);
    assert once[0].securityId == security;
    assert Legal(lots, both) by {
      assert forall i :: 0 <= i < |lots| && once[0].securityId == lots[i].securityId ==> lots[i].quantity > 0.0;
    }
    SplitForm(lots, both);
    forall i | 0 <= i < |lots|
      ensures SplitMany(lots, both).lots[i] == lots[i]
    {
      ReciprocalProduct(security, r, lots[i].securityId);
      ScaledByOne(lots[i]);
    }
  }

  // ----- splits and reconciliation

  /** A custodian file restated for the same splits. */
  function RestatedFile(file: seq<CustodianRow>, actions: seq<SplitAction>): (f: seq<CustodianRow>)
    ensures |f| == |file|
  {
    seq(|file|, i requires 0 <= i < |file| =>
      file[i].(quantity := Mul(file[i].quantity, Product(actions, file[i].securityId))))
  }

  lemma {:induction false} RestatedTotal(file: seq<CustodianRow>, actions: seq<SplitAction>, key: Key)
    ensures FileTotal(RestatedFile(file, actions), key) == Mul(FileTotal(file, key), Product(actions, key.1))
  {
    hide Mul, Product;
    if |file| == 0 {
      MulDistributes(0.0, 0.0, Product(actions, key.1));
    } else {
      var n := |file| - 1;
      RestatedTotal(file[..n], actions, key);
      assert RestatedFile(file, actions)[..n] == RestatedFile(file[..n], actions);
      var quantity := if RowKey(file[n]) == key then file[n].quantity else 0.0;
      MulDistributes(FileTotal(file[..n], key), quantity, Product(actions, key.1));
    }
  }

  lemma ScaledEqual(a: real, b: real, p: real)
    requires p > 0.0
    ensures Mul(a, p) == Mul(b, p) <==> a == b
  {
  }

  /** When the file is restated for the same splits, exactly the same positions disagree with the ledger as before. */
  lemma SplitsKeepDisagreements(book: Book, actions: seq<SplitAction>)
    requires SplitMany(book.lots, actions).Split?
    ensures Disagreeing(book.(lots := SplitMany(book.lots, actions).lots, file := RestatedFile(book.file, actions)))
            == Disagreeing(book)
  {
    hide Mul, SplitMany, Product, QuantityOf, FileTotal, Ledger;
    var after := book.(lots := SplitMany(book.lots, actions).lots, file := RestatedFile(book.file, actions));
    forall k
      ensures k in Disagreeing(after) <==> k in Disagreeing(book)
    {
      SamePositions(book.lots, actions, k);
      SameFileKeys(book.file, actions, k);
      TotalsScale(book.lots, actions, k);
      RestatedTotal(book.file, actions, k);
      SplitForm(book.lots, actions);
      ProductPositive(actions, k.1);
      ScaledEqual(FileTotal(book.file, k), QuantityOf(book.lots, k), Product(actions, k.1));
    }
  }

  lemma SamePositions(lots: seq<Lot>, actions: seq<SplitAction>, k: Key)
    requires SplitMany(lots, actions).Split?
    ensures k in Ledger(SplitMany(lots, actions).lots) <==> k in Ledger(lots)
  {
    hide Mul, Div, SplitMany, Product, QuantityOf, Ledger;
    SplitForm(lots, actions);
    var after := SplitMany(lots, actions).lots;
    LedgerIsSum(lots, k);
    LedgerIsSum(after, k);
    forall i | 0 <= i < |lots|
      ensures LotKey(after[i]) == LotKey(lots[i])
    {
    }
  }

  lemma SameFileKeys(file: seq<CustodianRow>, actions: seq<SplitAction>, k: Key)
    ensures k in FileKeys(RestatedFile(file, actions)) <==> k in FileKeys(file)
  {
    hide Mul, Product;
    var after := RestatedFile(file, actions);
    if i :| 0 <= i < |file| && RowKey(file[i]) == k {
      assert RowKey(after[i]) == k;
    }
    if i :| 0 <= i < |after| && RowKey(after[i]) == k {
      assert RowKey(file[i]) == k;
    }
  }
}
