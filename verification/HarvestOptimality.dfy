/** How the two harvest planners compare, and what the discrete planner's choice maximises. */
module HarvestOptimality {
  import opened Sequences
  import opened Harvest

  // ----- sums

  lemma {:induction false} SumWithout(s: seq<LotPosition>, i: nat, f: LotPosition -> real)
    requires i < |s|
    ensures Sum(s, f) == Sum(Without(s, i), f) + f(s[i])
  {
    var n := |s| - 1;
    if i < n {
      SumWithout(s[..n], i, f);
      assert Without(s, i)[..n - 1] == Without(s[..n], i);
    } else {
      assert Without(s, i) == s[..n];
    }
  }

  lemma {:induction false} SumSign(s: seq<LotPosition>, f: LotPosition -> real)
    ensures (forall l :: l in s ==> f(l) >= 0.0) ==> Sum(s, f) >= 0.0
    ensures (forall l :: l in s ==> f(l) <= 0.0) ==> Sum(s, f) <= 0.0
  {
    if |s| > 0 {
      SumSign(s[..|s| - 1], f);
    }
  }

  /** Fewer non-positive terms sum to no less. */
  lemma {:induction false} SumSubset(a: seq<LotPosition>, b: seq<LotPosition>, f: LotPosition -> real)
    requires multiset(a) <= multiset(b)
    requires forall l :: l in b ==> f(l) <= 0.0
    ensures Sum(b, f) <= Sum(a, f)
  {
    if |a| == 0 {
      SumSign(b, f);
    } else {
      var x := a[|a| - 1];
      assert a == a[..|a| - 1] + [x];
      var i := FindIn(x, b);
      var rest := Without(b, i);
      MultisetWithout(b, i);
      MembersFrom(rest, b);
      SumSubset(a[..|a| - 1], rest, f);
      SumWithout(b, i, f);
    }
  }

  lemma MembersFrom(a: seq<LotPosition>, b: seq<LotPosition>)
    requires multiset(a) <= multiset(b)
    ensures forall l :: l in a ==> l in b
  {
    forall l | l in a
      ensures l in b
    {
      assert l in multiset(a);
      assert l in multiset(b);
    }
  }

  // ----- what the two planners keep

  lemma {:induction false} KeepCount(lots: seq<LotPosition>, book: Book, x: LotPosition)
    ensures multiset(Keep(lots, book))[x] == if Harvestable(x, book) then multiset(lots)[x] else 0
  {
    hide Harvestable;
    if |lots| > 0 {
      KeepCount(lots[..|lots| - 1], book, x);
      assert lots == lots[..|lots| - 1] + [lots[|lots| - 1]];
    }
  }

  lemma {:induction false} LossesCount(lots: seq<LotPosition>, x: LotPosition)
    ensures multiset(Losses(lots))[x] == if IsLoss(x) then multiset(lots)[x] else 0
  {
    hide IsLoss;
    if |lots| > 0 {
      LossesCount(lots[..|lots| - 1], x);
      assert lots == lots[..|lots| - 1] + [lots[|lots| - 1]];
    }
  }

  lemma HeuristicCount(book: Book, x: LotPosition)
    ensures multiset(HeuristicLots(book))[x] == multiset(Keep(book.positions, book))[x]
    ensures multiset(HeuristicLots(book))[x] == if Harvestable(x, book) then multiset(book.positions)[x] else 0
  {
    hide Losses, SortBy, Keep;
    SortFacts(Losses(book.positions), GainKey());
    KeepCount(SortBy(Losses(book.positions), GainKey()), book, x);
    KeepCount(book.positions, book, x);
    LossesCount(book.positions, x);
  }

  /** The heuristic sells exactly the harvestable lots, each as often as it is held. */
  lemma HeuristicSellsAll(book: Book)
    ensures multiset(HeuristicLots(book)) == multiset(Keep(book.positions, book))
    ensures forall l :: l in HeuristicLots(book) <==> l in book.positions && Harvestable(l, book)
  {
    hide HeuristicLots, Harvestable, Keep;
    forall x: LotPosition
      ensures multiset(HeuristicLots(book))[x] == multiset(Keep(book.positions, book))[x]
      ensures x in HeuristicLots(book) <==> x in book.positions && Harvestable(x, book)
    {
      HeuristicCount(book, x);
      assert x in HeuristicLots(book) <==> multiset(HeuristicLots(book))[x] > 0;
      assert x in book.positions <==> multiset(book.positions)[x] > 0;
    }
  }

  lemma {:induction false} KeepSorted(lots: seq<LotPosition>, book: Book, key: LotPosition -> real)
    requires Sorted(lots, key)
    ensures Sorted(Keep(lots, book), key)
    ensures forall l :: l in Keep(lots, book) ==> l in lots
  {
    hide Harvestable;
    if |lots| > 0 {
      var n := |lots| - 1;
      KeepSorted(lots[..n], book, key);
      forall l | l in Keep(lots[..n], book)
        ensures key(l) <= key(lots[n]) && l in lots
      {
        var i :| 0 <= i < n && lots[..n][i] == l;
        assert lots[i] == l;
      }
    }
  }

  /** The heuristic sells the largest loss first; the discrete planner sells the best score first. */
  lemma PlansOrdered(book: Book, cap: int)
    ensures Sorted(HeuristicLots(book), GainKey()) && Sorted(MipLots(book, cap), ScoreKey(book))
  {
    hide Harvestable, Losses, SortBy, Keep, GainKey, ScoreKey;
    SortFacts(Losses(book.positions), GainKey());
    KeepSorted(SortBy(Losses(book.positions), GainKey()), book, GainKey());
    SortFacts(Keep(book.positions, book), ScoreKey(book));
  }

  lemma TakenFrom<T>(s: seq<T>, n: int)
    ensures multiset(TakeFirst(s, n)) <= multiset(s)
  {
    var r := TakeFirst(s, n);
    assert s == r + s[|r|..];
  }

  /** Whatever the cap, the discrete planner sells a part of what the heuristic sells. */
  lemma MipSellsPart(book: Book, cap: int)
    ensures multiset(MipLots(book, cap)) <= multiset(HeuristicLots(book))
    ensures 0 <= cap ==> |MipLots(book, cap)| == if cap <= |HeuristicLots(book)| then cap else |HeuristicLots(book)|
  {
    var kept := Keep(book.positions, book);
    HeuristicSellsAll(book);
    SortFacts(kept, ScoreKey(book));
    TakenFrom(SortBy(kept, ScoreKey(book)), cap);
    assert |multiset(HeuristicLots(book))| == |HeuristicLots(book)|;
    assert |multiset(kept)| == |kept|;
  }

  lemma HarvestTaxSign(lot: LotPosition, book: Book)
    requires Harvestable(lot, book) && book.stcgRate >= 0.0 && book.ltcgRate >= 0.0
    ensures HarvestTax(lot, book) <= 0.0
  {
  }

  /**
   * With non-negative rates the heuristic saves at least as much tax as the discrete planner, which never costs
   * tax.
   */
  lemma HeuristicSavesMore(book: Book, cap: int)
    requires book.stcgRate >= 0.0 && book.ltcgRate >= 0.0
    ensures TotalTax(HeuristicLots(book), book) <= TotalTax(MipLots(book, cap), book) <= 0.0
  {
    hide HarvestTax, Harvestable;
    var f := l => HarvestTax(l, book);
    MipSellsPart(book, cap);
    HeuristicSellsAll(book);
    forall l | l in HeuristicLots(book)
      ensures f(l) <= 0.0
    {
      HarvestTaxSign(l, book);
    }
    MembersFrom(MipLots(book, cap), HeuristicLots(book));
    SumSubset(MipLots(book, cap), HeuristicLots(book), f);
    SumSign(MipLots(book, cap), f);
  }

  // ----- what the discrete planner maximises

  ghost predicate Descending(s: seq<LotPosition>, f: LotPosition -> real) {
    forall i, j :: 0 <= i < j < |s| ==> f(s[i]) >= f(s[j])
  }

  /** The first k of a descending sequence weigh at least as much as any k of its elements. */
  lemma {:induction false} PrefixIsBest(s: seq<LotPosition>, t: seq<LotPosition>, k: nat, f: LotPosition -> real)
    requires Descending(s, f) && forall l :: l in s ==> f(l) >= 0.0
    requires multiset(t) <= multiset(s) && |t| <= k <= |s|
    ensures Sum(t, f) <= Sum(s[..k], f)
  {
    if |t| == 0 {
      SumSign(s[..k], f);
    } else {
      var i := DropHead(t, s);
      PrefixIsBest(s[1..], Without(t, i), k - 1, f);
      SumWithout(t, i, f);
      SumWithout(s[..k], 0, f);
      assert Without(s[..k], 0) == s[1..][..k - 1];
    }
  }

  lemma ScoreNonNegative(lot: LotPosition, book: Book)
    ensures Score(lot, book) >= 0.0
  {
  }

  /**
   * No choice of harvestable lots that respects the cap has a larger total score than the discrete
   * planner's: sorting by score and cutting is optimal.
   */
  lemma MipIsOptimal(book: Book, cap: nat, other: seq<LotPosition>)
    requires multiset(other) <= multiset(Keep(book.positions, book)) && |other| <= cap
    ensures TotalScore(other, book) <= TotalScore(MipLots(book, cap), book)
  {
    hide Score, Harvestable, Keep, SortBy;
    var f := l => Score(l, book);
    var s := SortBy(Keep(book.positions, book), ScoreKey(book));
    SortFacts(Keep(book.positions, book), ScoreKey(book));
    PartIsShorter(other, s);
    forall l | l in s
      ensures f(l) >= 0.0
    {
      ScoreNonNegative(l, book);
    }
    ScoresDescend(s, book);
    var best := MipLots(book, cap);
    PrefixIsBest(s, other, |best|, f);
    assert best == s[..|best|];
    assert TotalScore(best, book) == Sum(best, f);
  }

  lemma ScoresDescend(s: seq<LotPosition>, book: Book)
    requires Sorted(s, ScoreKey(book))
    ensures Descending(s, l => Score(l, book))
  {
  }
}
