/** Which breaks a reconciliation opens, read off the custodian's rows, the lots and the securities. */
module ReconciliationOnInputs {
  import opened Vectors
  import opened Wrappers
  import opened Lots
  import opened Reconciliation
  import opened ReconciliationTheorems

  /** The quantities of the lots of one position, zero elsewhere. */
  predicate AreQuantities(v: Vec, lots: seq<Lot>, account: string, security: string) {
    |v| == |lots| && forall i :: 0 <= i < |lots| ==>
      v[i] == if lots[i].accountId == account && lots[i].securityId == security then lots[i].quantity else 0.0
  }

  /** The ledger holds of a position the sum of its lots. */
  lemma {:induction false} LedgerOnInputs(lots: seq<Lot>, account: string, security: string, v: Vec)
    requires AreQuantities(v, lots, account, security)
    ensures Held(Ledger(lots), (account, security)) == Total(v)
  {
    hide Ledger, Held;
    LedgerIsSum(lots, (account, security));
    SumOnInputs(lots, account, security, v);
  }

  lemma {:induction false} SumOnInputs(lots: seq<Lot>, account: string, security: string, v: Vec)
    requires AreQuantities(v, lots, account, security)
    ensures QuantityOf(lots, (account, security)) == Total(v)
  {
    if |lots| > 0 {
      var n := |lots| - 1;
      SumOnInputs(lots[..n], account, security, v[..n]);
      assert v == v[..n] + [v[n]];
      TotalAppend(v[..n], v[n]);
    }
  }

  predicate HasRow(file: seq<CustodianRow>, account: string, security: string) {
    exists i :: 0 <= i < |file| && file[i].accountId == account && file[i].securityId == security
  }

  predicate HasLot(lots: seq<Lot>, account: string, security: string) {
    exists i :: 0 <= i < |lots| && lots[i].accountId == account && lots[i].securityId == security
  }

  // ----- row by row

  /** The mismatches of the file: the rows, in order, whose quantity is not the ledger's, custodian first. */
  lemma {:induction false} MismatchesOnInputs(file: seq<CustodianRow>, ledger: map<Key, real>) returns (rows: seq<nat>)
    ensures |QuantityBreaks(file, ledger)| == |rows|
    ensures forall k :: 0 <= k < |rows| ==>
              && rows[k] < |file|
              && var row := file[rows[k]];
                 var held := Held(ledger, (row.accountId, row.securityId));
                 row.quantity != held
                 && QuantityBreaks(file, ledger)[k]
                      == QuantityMismatch(row.accountId, row.securityId, row.quantity, held)
    ensures forall j, k :: 0 <= j < k < |rows| ==> rows[j] < rows[k]
    ensures forall i :: 0 <= i < |file| && file[i].quantity != Held(ledger, (file[i].accountId, file[i].securityId)) ==>
              i in rows
  {
    hide Held;
    if |file| == 0 {
      rows := [];
    } else {
      var n := |file| - 1;
      var before := MismatchesOnInputs(file[..n], ledger);
      var row := file[n];
      var more := Held(ledger, (row.accountId, row.securityId)) != row.quantity;
      rows := before + if more then [n] else [];
      forall i | 0 <= i < |file| && file[i].quantity != Held(ledger, (file[i].accountId, file[i].securityId))
        ensures i in rows
      {
        if i < n {
          assert file[..n][i] == file[i];
        } else {
          assert rows[|rows| - 1] == n;
        }
      }
    }
  }

  lemma MismatchOnInputs(file: seq<CustodianRow>, ledger: map<Key, real>, account: string, security: string,
                         theirs: real, ours: real)
    ensures QuantityMismatch(account, security, theirs, ours) in QuantityBreaks(file, ledger)
       <==> && theirs != ours && ours == Held(ledger, (account, security))
            && exists i :: && 0 <= i < |file| && file[i].accountId == account && file[i].securityId == security
                           && file[i].quantity == theirs
  {
    hide Held, QuantityBreaks;
    var rows := MismatchesOnInputs(file, ledger);
    var breaks := QuantityBreaks(file, ledger);
    if QuantityMismatch(account, security, theirs, ours) in breaks {
      var k :| 0 <= k < |breaks| && breaks[k] == QuantityMismatch(account, security, theirs, ours);
    }
    if i :| && 0 <= i < |file| && file[i].accountId == account && file[i].securityId == security
            && file[i].quantity == theirs {
      if theirs != ours && ours == Held(ledger, (account, security)) {
        assert i in rows;
        var k :| 0 <= k < |rows| && rows[k] == i;
        assert breaks[k] == QuantityMismatch(account, security, theirs, ours);
      }
    }
  }

  lemma UnmentionedOnInputs(book: Book, account: string, security: string)
    ensures (account, security) in Unmentioned(book)
       <==> && HasLot(book.lots, account, security) && account in book.accounts
            && !HasRow(book.file, account, security) && Held(Ledger(book.lots), (account, security)) != 0.0
  {
    hide Ledger;
    LedgerIsSum(book.lots, (account, security));
    assert (account, security) in FileKeys(book.file) <==> HasRow(book.file, account, security);
    assert (account, security) in Ledger(book.lots) <==> HasLot(book.lots, account, security);
  }

  // ----- the kinds of breaks

  lemma OneKind(book: Book, breaks: seq<Break>, b: Break) returns (date: Option<int>, o: Orders)
    requires IsReconciliation(book, breaks)
    ensures IsMax(book.priceDates, date) && ValidOrders(book, o)
    ensures breaks == BreaksOf(book, date, o)
    ensures b.MixedAsOf? || b.StaleAsOf? ==> (b in breaks <==> b in DateBreaks(book.file, date))
    ensures b.QuantityMismatch? ==> (b in breaks <==> b in QuantityBreaks(book.file, Ledger(book.lots)))
    ensures b.LedgerOnly? ==> (b in breaks <==> b in LedgerBreaks(Ledger(book.lots), o.unmentioned))
    ensures b.SymbologyMismatch? ==> (b in breaks <==> b in SymbologyPassOf(book.file, o))
  {
    hide IsMax, ValidOrders, Ledger, QuantityBreaks, DateBreaks, LedgerBreaks, SymbologyBreaks;
    date, o :| IsMax(book.priceDates, date) && ValidOrders(book, o) && breaks == BreaksOf(book, date, o);
    assert forall x :: x in QuantityBreaks(book.file, Ledger(book.lots)) ==> x.QuantityMismatch? by {
      AllMismatches(book.file, Ledger(book.lots));
    }
    assert forall x :: x in DateBreaks(book.file, date) ==> x.MixedAsOf? || x.StaleAsOf? by {
      AllDates(book.file, date);
    }
    assert forall x :: x in LedgerBreaks(Ledger(book.lots), o.unmentioned) ==> x.LedgerOnly? by {
      AllLedger(Ledger(book.lots), o.unmentioned);
    }
    assert forall x :: x in SymbologyPassOf(book.file, o) ==> x.SymbologyMismatch? by { AllSymbology(book.file, o); }
  }

  lemma AllMismatches(file: seq<CustodianRow>, ledger: map<Key, real>)
    ensures forall x :: x in QuantityBreaks(file, ledger) ==> x.QuantityMismatch?
  {
    hide Held;
    if |file| > 0 {
      AllMismatches(file[..|file| - 1], ledger);
    }
  }

  lemma AllDates(file: seq<CustodianRow>, date: Option<int>)
    ensures forall x :: x in DateBreaks(file, date) ==> x.MixedAsOf? || x.StaleAsOf?
  {
  }

  lemma AllLedger(ledger: map<Key, real>, keys: seq<Key>)
    ensures forall x :: x in LedgerBreaks(ledger, keys) ==> x.LedgerOnly?
  {
  }

  lemma AllSymbology(file: seq<CustodianRow>, o: Orders)
    ensures forall x :: x in SymbologyPassOf(file, o) ==> x.SymbologyMismatch?
  {
  }

  /** A quantity break for exactly the rows that do not state the ledger's quantity, the custodian's named first. */
  lemma QuantityBreakIff(book: Book, breaks: seq<Break>, account: string, security: string, theirs: real, ours: real,
                         v: Vec)
    requires IsReconciliation(book, breaks) && AreQuantities(v, book.lots, account, security)
    ensures QuantityMismatch(account, security, theirs, ours) in breaks
       <==> && theirs != ours && ours == Total(v)
            && exists i :: && 0 <= i < |book.file| && book.file[i].accountId == account
                           && book.file[i].securityId == security && book.file[i].quantity == theirs
  {
    hide IsReconciliation, Ledger, Held, Total, QuantityBreaks;
    var date, o := OneKind(book, breaks, QuantityMismatch(account, security, theirs, ours));
    LedgerOnInputs(book.lots, account, security, v);
    MismatchOnInputs(book.file, Ledger(book.lots), account, security, theirs, ours);
  }

  /** A ledger-only break for exactly the held, unmentioned positions of the custodian's accounts. */
  lemma LedgerBreakIff(book: Book, breaks: seq<Break>, account: string, security: string, ours: real, v: Vec)
    requires IsReconciliation(book, breaks) && AreQuantities(v, book.lots, account, security)
    ensures LedgerOnly(account, security, ours) in breaks
       <==> && ours == Total(v) && ours != 0.0 && account in book.accounts
            && HasLot(book.lots, account, security) && !HasRow(book.file, account, security)
  {
    hide IsReconciliation, Ledger, Held, Total, Unmentioned;
    var b := LedgerOnly(account, security, ours);
    var date, o := OneKind(book, breaks, b);
    LedgerOnInputs(book.lots, account, security, v);
    UnmentionedOnInputs(book, account, security);
    var keys := o.unmentioned;
    if b in LedgerBreaks(Ledger(book.lots), keys) {
      var k :| 0 <= k < |keys| && LedgerBreaks(Ledger(book.lots), keys)[k] == b;
      assert keys[k] == (account, security) && keys[k] in keys;
    }
    if (account, security) in keys {
      var k :| 0 <= k < |keys| && keys[k] == (account, security);
      assert LedgerBreaks(Ledger(book.lots), keys)[k]
          == LedgerOnly(account, security, Held(Ledger(book.lots), keys[k]));
    }
  }

  /** A break for mixed dates exactly when two rows differ in date; it names the account of the first row. */
  lemma MixedDatesIff(book: Book, breaks: seq<Break>, account: string)
    requires IsReconciliation(book, breaks)
    ensures MixedAsOf(account) in breaks
       <==> && |book.file| > 0 && account == book.file[0].accountId
            && exists i :: 0 <= i < |book.file| && book.file[i].asOf != book.file[0].asOf
  {
    hide IsReconciliation;
    var date, o := OneKind(book, breaks, MixedAsOf(account));
    if |book.file| > 0 {
      DatesOnInputs(book.file);
    }
  }

  lemma DatesOnInputs(file: seq<CustodianRow>)
    requires |file| > 0
    ensures |FileDates(file)| > 1 <==> exists i :: 0 <= i < |file| && file[i].asOf != file[0].asOf
  {
    var d := file[0].asOf;
    assert d in FileDates(file);
    if i :| 0 <= i < |file| && file[i].asOf != d {
      assert {d, file[i].asOf} <= FileDates(file);
      CardinalityMonotone({d, file[i].asOf}, FileDates(file));
    } else {
      assert FileDates(file) == {d};
    }
  }

  /** A break for a stale ledger exactly when the rows share a date that is not the newest price date. */
  lemma StaleLedgerIff(book: Book, breaks: seq<Break>, account: string)
    requires IsReconciliation(book, breaks)
    ensures StaleAsOf(account) in breaks
       <==> && |book.file| > 0 && account == book.file[0].accountId
            && (forall i :: 0 <= i < |book.file| ==> book.file[i].asOf == book.file[0].asOf)
            && !(book.file[0].asOf in book.priceDates && forall d :: d in book.priceDates ==> d <= book.file[0].asOf)
  {
    hide IsReconciliation;
    var date, o := OneKind(book, breaks, StaleAsOf(account));
    if |book.file| > 0 {
      DatesOnInputs(book.file);
    }
  }

  /** The identifier a security carries under a scheme. */
  predicate Carries(s: Security, scheme: Scheme, x: string) {
    if scheme == Isin then s.isin == Some(x) else s.cusip == Some(x)
  }

  /** The security is in the file, or held and unmentioned in an account of the custodian. */
  ghost predicate IsTouched(book: Book, security: string) {
    || (exists i :: 0 <= i < |book.file| && book.file[i].securityId == security)
    || (exists account :: (account, security) in Unmentioned(book))
  }

  /** A symbology break for exactly the identifiers that a touched security carries and two securities share. */
  lemma SymbologyBreakIff(book: Book, breaks: seq<Break>, account: string, scheme: Scheme, x: string)
    requires IsReconciliation(book, breaks)
    ensures SymbologyMismatch(account, scheme, x) in breaks
       <==> && |book.file| > 0 && account == book.file[0].accountId && x != ""
            && (exists i :: && 0 <= i < |book.securities| && Carries(book.securities[i], scheme, x)
                            && IsTouched(book, book.securities[i].securityId))
            && (exists i, j :: && 0 <= i < |book.securities| && 0 <= j < |book.securities|
                               && Carries(book.securities[i], scheme, x) && Carries(book.securities[j], scheme, x)
                               && book.securities[i].securityId != book.securities[j].securityId)
  {
    hide IsReconciliation, Shared, IsMax;
    var b := SymbologyMismatch(account, scheme, x);
    var date, o := OneKind(book, breaks, b);
    SharedOnInputs(book, scheme, x);
    var ids := if scheme == Isin then o.isins else o.cusips;
    assert b in SymbologyPassOf(book.file, o) <==> |book.file| > 0 && account == book.file[0].accountId && x in ids by {
      hide Shared, Touched;
      if |book.file| > 0 {
        PassMember(book.file[0].accountId, o, b, scheme, x);
      }
    }
  }

  lemma PassMember(account: string, o: Orders, b: Break, scheme: Scheme, x: string)
    requires b.SymbologyMismatch? && b.scheme == scheme && b.identifier == x
    ensures b in SymbologyBreaks(account, Isin, o.isins) + SymbologyBreaks(account, Cusip, o.cusips)
       <==> b.accountId == account && x in if scheme == Isin then o.isins else o.cusips
  {
    if b.accountId == account {
      if scheme == Isin && x in o.isins {
        var k :| 0 <= k < |o.isins| && o.isins[k] == x;
        assert SymbologyBreaks(account, Isin, o.isins)[k] == b;
      }
      if scheme == Cusip && x in o.cusips {
        var k :| 0 <= k < |o.cusips| && o.cusips[k] == x;
        assert SymbologyBreaks(account, Cusip, o.cusips)[k] == b;
      }
    }
  }

  lemma SharedOnInputs(book: Book, scheme: Scheme, x: string)
    ensures x in Shared(book.securities, Touched(book), scheme)
       <==> && x != ""
            && (exists i :: && 0 <= i < |book.securities| && Carries(book.securities[i], scheme, x)
                            && IsTouched(book, book.securities[i].securityId))
            && (exists i, j :: && 0 <= i < |book.securities| && 0 <= j < |book.securities|
                               && Carries(book.securities[i], scheme, x) && Carries(book.securities[j], scheme, x)
                               && book.securities[i].securityId != book.securities[j].securityId)
  {
    hide Unmentioned;
    forall security: string
      ensures security in Touched(book) <==> IsTouched(book, security)
    {
      if k :| k in Unmentioned(book) && k.1 == security {
        assert (k.0, security) in Unmentioned(book);
      }
    }
    hide Touched, IsTouched;
    TwoSharers(book.securities, scheme, x);
  }

  lemma TwoSharers(securities: seq<Security>, scheme: Scheme, x: string)
    ensures |Sharers(securities, scheme, x)| >= 2
       <==> exists i, j :: && 0 <= i < |securities| && 0 <= j < |securities|
                           && Carries(securities[i], scheme, x) && Carries(securities[j], scheme, x)
                           && securities[i].securityId != securities[j].securityId
  {
    var s := Sharers(securities, scheme, x);
    if |s| >= 2 {
      var a :| a in s;
      assert |s - {a}| >= 1;
      var b :| b in s - {a};
      var i :| 0 <= i < |securities| && IdentifierOf(securities[i], scheme) == Some(x) && securities[i].securityId == a;
      var j :| 0 <= j < |securities| && IdentifierOf(securities[j], scheme) == Some(x) && securities[j].securityId == b;
      assert Carries(securities[i], scheme, x) && Carries(securities[j], scheme, x);
    }
    if i, j :| && 0 <= i < |securities| && 0 <= j < |securities|
               && Carries(securities[i], scheme, x) && Carries(securities[j], scheme, x)
               && securities[i].securityId != securities[j].securityId {
      assert IdentifierOf(securities[i], scheme) == Some(x) && IdentifierOf(securities[j], scheme) == Some(x);
      assert {securities[i].securityId, securities[j].securityId} <= s;
      CardinalityMonotone({securities[i].securityId, securities[j].securityId}, s);
    }
  }

  // ----- order and record

  /** Dates first, then mismatches, then ledger-only positions, then ISINs, then CUSIPs. */
  function Turn(b: Break): nat {
    match b
    case MixedAsOf(_) => 0
    case StaleAsOf(_) => 0
    case QuantityMismatch(_, _, _, _) => 1
    case LedgerOnly(_, _, _) => 2
    case SymbologyMismatch(_, scheme, _) => if scheme == Isin then 3 else 4
  }

  predicate InTurn(breaks: seq<Break>) {
    forall i, j :: 0 <= i < j < |breaks| ==> Turn(breaks[i]) <= Turn(breaks[j])
  }

  lemma TurnsConcat(a: seq<Break>, b: seq<Break>, t: nat)
    requires InTurn(a) && InTurn(b)
    requires (forall x :: x in a ==> Turn(x) <= t) && (forall x :: x in b ==> t <= Turn(x))
    ensures InTurn(a + b)
  {
    hide Turn;
    var s := a + b;
    forall i, j | 0 <= i < j < |s|
      ensures Turn(s[i]) <= Turn(s[j])
    {
      assert i < |a| ==> s[i] in a;
      assert j >= |a| ==> s[j] in b;
    }
  }

  lemma PartTurns(book: Book, date: Option<int>, o: Orders)
    ensures InTurn(DateBreaks(book.file, date)) && forall x :: x in DateBreaks(book.file, date) ==> Turn(x) == 0
    ensures var q := QuantityBreaks(book.file, Ledger(book.lots)); InTurn(q) && forall x :: x in q ==> Turn(x) == 1
    ensures var l := LedgerBreaks(Ledger(book.lots), o.unmentioned); InTurn(l) && forall x :: x in l ==> Turn(x) == 2
    ensures var s := SymbologyPassOf(book.file, o); InTurn(s) && forall x :: x in s ==> 3 <= Turn(x)
  {
    hide Ledger, QuantityBreaks;
    AllMismatches(book.file, Ledger(book.lots));
    OneTurn(QuantityBreaks(book.file, Ledger(book.lots)), 1);
  }

  lemma OneTurn(s: seq<Break>, t: nat)
    requires forall x :: x in s ==> Turn(x) == t
    ensures InTurn(s)
  {
    hide Turn;
    forall i, j | 0 <= i < j < |s|
      ensures Turn(s[i]) <= Turn(s[j])
    {
      assert s[i] in s && s[j] in s;
    }
  }

  /** The breaks are opened in that order. */
  lemma BreaksInTurn(book: Book, breaks: seq<Break>)
    requires IsReconciliation(book, breaks)
    ensures InTurn(breaks)
  {
    hide IsMax, ValidOrders, Ledger, QuantityBreaks, DateBreaks, LedgerBreaks, SymbologyPassOf, InTurn, Turn;
    var date, o :| IsMax(book.priceDates, date) && ValidOrders(book, o) && breaks == BreaksOf(book, date, o);
    PartTurns(book, date, o);
    var d, q := DateBreaks(book.file, date), QuantityBreaks(book.file, Ledger(book.lots));
    var l, s := LedgerBreaks(Ledger(book.lots), o.unmentioned), SymbologyPassOf(book.file, o);
    TurnsConcat(d, q, 0);
    TurnsConcat(d + q, l, 1);
    TurnsConcat(d + q + l, s, 2);
  }

  /** Each break becomes one open row and one log entry, numbered on from the rows before. */
  lemma RecordOnInputs(rows0: seq<BreakRow>, audit0: seq<AuditRow>, rows: seq<BreakRow>, audit: seq<AuditRow>,
                       ingest: string, actor: string, breaks: seq<Break>)
    requires Logged(rows0, audit0, rows, audit, ingest, actor, breaks)
    ensures |rows| == |rows0| + |breaks| && |audit| == |audit0| + |breaks|
    ensures rows[..|rows0|] == rows0 && audit[..|audit0|] == audit0
    ensures forall i :: 0 <= i < |breaks| ==>
              && rows[|rows0| + i].found == breaks[i] && rows[|rows0| + i].ingest == ingest
              && !rows[|rows0| + i].resolved && rows[|rows0| + i].breakId == |rows0| + i
              && audit[|audit0| + i].actor == actor && audit[|audit0| + i].breakId == |rows0| + i
              && audit[|audit0| + i].found == breaks[i]
  {
  }
}
