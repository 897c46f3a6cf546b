/** What the breaks of a reconciliation say about the file and the ledger. */
module ReconciliationTheorems {
  import opened Wrappers
  import opened Lots
  import opened Reconciliation

  // ----- the two sides as totals per position

  function QuantityOf(lots: seq<Lot>, key: Key): real {
    if |lots| == 0 then 0.0
    else
      var last := lots[|lots| - 1];
      QuantityOf(lots[..|lots| - 1], key) + if LotKey(last) == key then last.quantity else 0.0
  }

  function FileTotal(file: seq<CustodianRow>, key: Key): real {
    if |file| == 0 then 0.0
    else FileTotal(file[..|file| - 1], key) + if RowKey(file[|file| - 1]) == key then file[|file| - 1].quantity else 0.0
  }

  ghost predicate DistinctRows(file: seq<CustodianRow>) {
    forall i, j :: 0 <= i < j < |file| ==> RowKey(file[i]) != RowKey(file[j])
  }

  /** A position is compared when the file mentions it or the custodian holds its account. */
  ghost predicate Compared(book: Book, key: Key) {
    key in FileKeys(book.file) || key.0 in book.accounts
  }

  /** The positions on which file and ledger differ; a missing side counts as zero. */
  ghost function Disagreeing(book: Book): set<Key> {
    set k | k in FileKeys(book.file) + Ledger(book.lots).Keys && Compared(book, k)
        && FileTotal(book.file, k) != QuantityOf(book.lots, k)
  }

  /** Grouping sums each position's lots, and knows exactly the positions that have one. */
  lemma {:induction false} LedgerIsSum(lots: seq<Lot>, key: Key)
    ensures Held(Ledger(lots), key) == QuantityOf(lots, key)
    ensures key in Ledger(lots) <==> exists i :: 0 <= i < |lots| && LotKey(lots[i]) == key
  {
    if |lots| > 0 {
      var n := |lots| - 1;
      LedgerIsSum(lots[..n], key);
      LedgerIsSum(lots[..n], LotKey(lots[n]));
      if i :| 0 <= i < |lots| && LotKey(lots[i]) == key {
        assert i < n ==> lots[..n][i] == lots[i];
      }
      if key in Ledger(lots[..n]) {
        var i :| 0 <= i < n && LotKey(lots[..n][i]) == key;
        assert LotKey(lots[i]) == key;
      }
    }
  }

  lemma {:induction false} NoRowNoTotal(file: seq<CustodianRow>, key: Key)
    requires forall i :: 0 <= i < |file| ==> RowKey(file[i]) != key
    ensures FileTotal(file, key) == 0.0
  {
    if |file| > 0 {
      NoRowNoTotal(file[..|file| - 1], key);
    }
  }

  /** In a file of distinct rows a position's total is its one row's quantity. */
  lemma {:induction false} RowIsTotal(file: seq<CustodianRow>, i: nat)
    requires DistinctRows(file) && i < |file|
    ensures FileTotal(file, RowKey(file[i])) == file[i].quantity
  {
    var n := |file| - 1;
    if i < n {
      RowIsTotal(file[..n], i);
    } else {
      NoRowNoTotal(file[..n], RowKey(file[n]));
    }
  }

  // ----- counting

  lemma {:induction false} ListsCount<T(!new)>(s: seq<T>, elements: set<T>)
    requires Lists(s, elements)
    ensures |s| == |elements|
  {
    if |s| == 0 {
      assert elements == {};
    } else {
      var n := |s| - 1;
      var rest := elements - {s[n]};
      forall x
        ensures x in s[..n] <==> x in rest
      {
        if x in rest {
          var i :| 0 <= i < |s| && s[i] == x;
          assert s[..n][i] == x;
        }
      }
      ListsCount(s[..n], rest);
    }
  }

  /** The positions whose row differs from the ledger. */
  ghost function Mismatched(file: seq<CustodianRow>, ledger: map<Key, real>): set<Key> {
    set i | 0 <= i < |file| && Held(ledger, RowKey(file[i])) != file[i].quantity :: RowKey(file[i])
  }

  lemma {:induction false} MismatchCount(file: seq<CustodianRow>, ledger: map<Key, real>)
    requires DistinctRows(file)
    ensures |QuantityBreaks(file, ledger)| == |Mismatched(file, ledger)|
  {
    hide Held;
    if |file| == 0 {
      assert Mismatched(file, ledger) == {};
    } else {
      var n := |file| - 1;
      MismatchCount(file[..n], ledger);
      MismatchedStep(file, n, ledger);
    }
  }

  lemma MismatchedStep(file: seq<CustodianRow>, n: nat, ledger: map<Key, real>)
    requires DistinctRows(file) && n + 1 == |file|
    ensures var last := RowKey(file[n]);
            && last !in Mismatched(file[..n], ledger)
            && Mismatched(file, ledger)
               == Mismatched(file[..n], ledger) + if Held(ledger, last) != file[n].quantity then {last} else {}
  {
  }

  /** The disagreeing positions: those of mismatched rows, and those the file does not mention. */
  lemma DisagreementSplits(book: Book)
    requires DistinctRows(book.file)
    ensures Disagreeing(book) == Mismatched(book.file, Ledger(book.lots)) + Unmentioned(book)
    ensures Mismatched(book.file, Ledger(book.lots)) !! Unmentioned(book)
  {
    hide Ledger, QuantityOf, FileTotal, Held;
    var ledger := Ledger(book.lots);
    forall k
      ensures k in Disagreeing(book) <==> k in Mismatched(book.file, ledger) || k in Unmentioned(book)
      ensures !(k in Mismatched(book.file, ledger) && k in Unmentioned(book))
    {
      LedgerIsSum(book.lots, k);
      if k in FileKeys(book.file) {
        MentionedDisagrees(book, k);
      } else {
        NoRowNoTotal(book.file, k);
        UnmentionedDisagrees(book, k);
        assert k !in Mismatched(book.file, ledger);
      }
    }
  }

  lemma MentionedDisagrees(book: Book, k: Key)
    requires DistinctRows(book.file) && k in FileKeys(book.file)
    ensures k in Mismatched(book.file, Ledger(book.lots)) <==> FileTotal(book.file, k) != QuantityOf(book.lots, k)
  {
    hide Ledger, QuantityOf, FileTotal, Held;
    LedgerIsSum(book.lots, k);
    var i :| 0 <= i < |book.file| && RowKey(book.file[i]) == k;
    RowIsTotal(book.file, i);
    if k in Mismatched(book.file, Ledger(book.lots)) {
      var j :| 0 <= j < |book.file| && Held(Ledger(book.lots), RowKey(book.file[j])) != book.file[j].quantity
          && RowKey(book.file[j]) == k;
      RowIsTotal(book.file, j);
    }
  }

  lemma UnmentionedDisagrees(book: Book, k: Key)
    requires k !in FileKeys(book.file)
    ensures k in Unmentioned(book)
            <==> k in Ledger(book.lots) && k.0 in book.accounts && QuantityOf(book.lots, k) != 0.0
  {
    hide Ledger, QuantityOf;
    LedgerIsSum(book.lots, k);
  }

  predicate IsPositionBreak(b: Break) {
    b.QuantityMismatch? || b.LedgerOnly?
  }

  predicate NoPositionBreak(breaks: seq<Break>) {
    forall i :: 0 <= i < |breaks| ==> !IsPositionBreak(breaks[i])
  }

  lemma {:induction false} QuantityBreaksArePositions(file: seq<CustodianRow>, ledger: map<Key, real>)
    ensures forall i :: 0 <= i < |QuantityBreaks(file, ledger)| ==> QuantityBreaks(file, ledger)[i].QuantityMismatch?
  {
    if |file| > 0 {
      QuantityBreaksArePositions(file[..|file| - 1], ledger);
    }
  }

  lemma PartsOf(book: Book, breaks: seq<Break>) returns (date: Option<int>, o: Orders)
    requires IsReconciliation(book, breaks)
    ensures IsMax(book.priceDates, date) && ValidOrders(book, o) && breaks == BreaksOf(book, date, o)
  {
    hide Ledger, ValidOrders, BreaksOf, IsMax;
    date, o :| IsMax(book.priceDates, date) && ValidOrders(book, o) && breaks == BreaksOf(book, date, o);
  }

  /**
   * No quantity or ledger-only break is opened exactly when file and summed lots agree on every position of the
   * file and of the custodian's accounts, a missing side being zero.
   */
  lemma CleanIffAgree(book: Book, breaks: seq<Break>)
    requires DistinctRows(book.file) && IsReconciliation(book, breaks)
    ensures NoPositionBreak(breaks)
            <==> forall k :: Compared(book, k) ==> FileTotal(book.file, k) == QuantityOf(book.lots, k)
  {
    hide Ledger, QuantityOf, FileTotal, Held, QuantityBreaks, Mismatched, Unmentioned, Touched, Shared;
    var date, o := PartsOf(book, breaks);
    PositionBreaksExist(book, date, o);
    ListsCount(o.unmentioned, Unmentioned(book));
    MismatchCount(book.file, Ledger(book.lots));
    DisagreementSplits(book);
    forall k | Compared(book, k)
      ensures FileTotal(book.file, k) == QuantityOf(book.lots, k) <==> k !in Disagreeing(book)
    {
      if k !in FileKeys(book.file) + Ledger(book.lots).Keys {
        NoRowNoTotal(book.file, k);
        LedgerIsSum(book.lots, k);
        NotHeld(Ledger(book.lots), k);
      }
    }
    EmptyParts(Mismatched(book.file, Ledger(book.lots)), Unmentioned(book));
  }

  lemma EmptyParts<T>(a: set<T>, b: set<T>)
    ensures a + b == {} <==> |a| == 0 && |b| == 0
  {
  }

  lemma NotHeld(ledger: map<Key, real>, k: Key)
    requires k !in ledger
    ensures Held(ledger, k) == 0.0
  {
  }

  lemma PositionBreaksExist(book: Book, date: Option<int>, o: Orders)
    ensures NoPositionBreak(BreaksOf(book, date, o))
            <==> |QuantityBreaks(book.file, Ledger(book.lots))| == 0 && |o.unmentioned| == 0
  {
    hide Ledger, QuantityBreaks, Held, FileDates;
    var breaks := BreaksOf(book, date, o);
    var a, b := DateBreaks(book.file, date), QuantityBreaks(book.file, Ledger(book.lots));
    var c := LedgerBreaks(Ledger(book.lots), o.unmentioned);
    QuantityBreaksArePositions(book.file, Ledger(book.lots));
    assert |b| > 0 ==> breaks[|a|] == b[0];
    assert |c| > 0 ==> breaks[|a| + |b|] == c[0];
  }

  /** The identifiers a reconciliation reports: none for an empty file. */
  ghost function SharedCount(book: Book): nat {
    var isins := Shared(book.securities, Touched(book), Isin);
    var cusips := Shared(book.securities, Touched(book), Cusip);
    if |book.file| == 0 then 0 else |isins| + |cusips|
  }

  /** The breaks counted: one per disagreeing position, at most one for the date, one per shared identifier. */
  lemma BreaksCounted(book: Book, breaks: seq<Break>)
    requires DistinctRows(book.file) && IsReconciliation(book, breaks)
    ensures |breaks| == (if DatesAgree(book) then 0 else 1) + |Disagreeing(book)| + SharedCount(book)
  {
    hide Ledger, QuantityOf, FileTotal, Held, QuantityBreaks, Mismatched, Unmentioned, Touched, Shared, DateBreaks,
         DatesAgree, Disagreeing, IsMax;
    var date, o := PartsOf(book, breaks);
    ListsCount(o.unmentioned, Unmentioned(book));
    ListsCount(o.isins, Shared(book.securities, Touched(book), Isin));
    ListsCount(o.cusips, Shared(book.securities, Touched(book), Cusip));
    MismatchCount(book.file, Ledger(book.lots));
    DisagreementSplits(book);
    DateBreakIff(book, date);
    assert |breaks|
        == |DateBreaks(book.file, date)| + |QuantityBreaks(book.file, Ledger(book.lots))| + |o.unmentioned|
            + |SymbologyPassOf(book.file, o)|;
    assert |Disagreeing(book)| == |Mismatched(book.file, Ledger(book.lots))| + |Unmentioned(book)|;
  }

  // ----- dates

  /** Nothing to date, or one date in the file, and it is the newest price date of the ledger. */
  ghost predicate DatesAgree(book: Book) {
    |book.file| == 0
    || exists d: int :: IsMax(book.priceDates, Some(d)) && forall i :: 0 <= i < |book.file| ==> book.file[i].asOf == d
  }

  lemma MaxUnique(dates: seq<int>, a: Option<int>, b: Option<int>)
    requires IsMax(dates, a) && IsMax(dates, b)
    ensures a == b
  {
    if |dates| > 0 {
      assert a.value <= b.value && b.value <= a.value;
    }
  }

  lemma OneDate(file: seq<CustodianRow>)
    requires |file| > 0
    ensures |FileDates(file)| > 1 <==> exists i :: 0 <= i < |file| && file[i].asOf != file[0].asOf
  {
    assert file[0].asOf in FileDates(file);
    if i :| 0 <= i < |file| && file[i].asOf != file[0].asOf {
      assert file[i].asOf in FileDates(file);
      assert {file[0].asOf, file[i].asOf} <= FileDates(file);
      CardinalityMonotone({file[0].asOf, file[i].asOf}, FileDates(file));
    } else {
      assert FileDates(file) == {file[0].asOf};
    }
  }

  lemma CardinalityMonotone<T>(a: set<T>, b: set<T>)
    requires a <= b
    ensures |a| <= |b|
  {
    assert b == a + (b - a);
  }

  /** At most one date break, and none exactly when the dates agree. */
  lemma DateBreakIff(book: Book, date: Option<int>)
    requires IsMax(book.priceDates, date)
    ensures |DateBreaks(book.file, date)| <= 1
    ensures DateBreaks(book.file, date) == [] <==> DatesAgree(book)
  {
    hide FileDates;
    if |book.file| > 0 {
      OneDate(book.file);
      if d: int :| IsMax(book.priceDates, Some(d)) && forall i :: 0 <= i < |book.file| ==> book.file[i].asOf == d {
        MaxUnique(book.priceDates, date, Some(d));
      }
      if DateBreaks(book.file, date) == [] {
        assert IsMax(book.priceDates, Some(book.file[0].asOf));
      }
    }
  }

  // ----- identifiers

  /** An identifier is reported exactly when a touched security carries it and two different securities do. */
  lemma SharedIff(securities: seq<Security>, touched: set<string>, scheme: Scheme, x: string)
    ensures x in Shared(securities, touched, scheme)
       <==> && x != ""
            && (exists i ::
                  && 0 <= i < |securities| && securities[i].securityId in touched
                  && IdentifierOf(securities[i], scheme) == Some(x))
            && exists i, j ::
                 && 0 <= i < |securities| && 0 <= j < |securities|
                 && securities[i].securityId != securities[j].securityId
                 && IdentifierOf(securities[i], scheme) == Some(x) && IdentifierOf(securities[j], scheme) == Some(x)
  {
    hide IdentifierOf;
    var ids := Sharers(securities, scheme, x);
    if i, j :| (0 <= i < |securities| && 0 <= j < |securities| && securities[i].securityId != securities[j].securityId
                && IdentifierOf(securities[i], scheme) == Some(x) && IdentifierOf(securities[j], scheme) == Some(x)) {
      assert securities[i].securityId in ids && securities[j].securityId in ids;
      CardinalityMonotone({securities[i].securityId, securities[j].securityId}, ids);
    }
    if |ids| >= 2 {
      var a :| a in ids;
      assert |ids - {a}| == |ids| - 1;
      var b :| b in ids - {a};
    }
  }

  // ----- without distinct rows

  /** Row by row, whatever the file: no quantity break exactly when every row states its position's ledger total. */
  lemma {:induction false} QuantityCleanIff(file: seq<CustodianRow>, lots: seq<Lot>)
    ensures QuantityBreaks(file, Ledger(lots)) == []
            <==> forall i :: 0 <= i < |file| ==> file[i].quantity == QuantityOf(lots, RowKey(file[i]))
  {
    hide Ledger, QuantityOf, Held;
    if |file| > 0 {
      var n := |file| - 1;
      QuantityCleanIff(file[..n], lots);
      LedgerIsSum(lots, RowKey(file[n]));
      assert forall i :: 0 <= i < n ==> file[..n][i] == file[i];
    }
  }

  /**
   * A position reported on two rows is compared row by row: rows that together match the ledger still break, unless
   * each alone does.
   */
  lemma SplitRowsBreak(a: CustodianRow, b: CustodianRow, lots: seq<Lot>)
    requires RowKey(a) == RowKey(b) && a.quantity + b.quantity == QuantityOf(lots, RowKey(a))
    ensures FileTotal([a, b], RowKey(a)) == QuantityOf(lots, RowKey(a))
    ensures QuantityBreaks([a, b], Ledger(lots)) == [] <==> a.quantity == 0.0 && b.quantity == 0.0
  {
    hide QuantityOf, Ledger, Held;
    QuantityCleanIff([a, b], lots);
    hide QuantityBreaks;
    assert [a, b][..1] == [a] && [a][..0] == [];
    assert FileTotal([a], RowKey(a)) == a.quantity;
    assert [a, b][0] == a && [a, b][1] == b;
  }
}
