/** Custodian file against lot ledger: which breaks an ingest opens (execution/reconciliation/service.py). */
module Reconciliation {
  import opened Wrappers
  import opened Lots

  /** Account and security. */
  type Key = (string, string)

  datatype CustodianRow = CustodianRow(accountId: string, securityId: string, quantity: real, asOf: int)

  datatype Security = Security(securityId: string, isin: Option<string>, cusip: Option<string>)

  datatype Scheme = Isin | Cusip

  datatype Break =
    | MixedAsOf(accountId: string)
    | StaleAsOf(accountId: string)
    | QuantityMismatch(accountId: string, securityId: string, custodian: real, ledger: real)
    | LedgerOnly(accountId: string, securityId: string, ledger: real)
    | SymbologyMismatch(accountId: string, scheme: Scheme, identifier: string)

  /** Everything one ingest is compared with. The accounts are those held at the ingest's custodian. */
  datatype Book = Book(
    file: seq<CustodianRow>,
    lots: seq<Lot>,
    accounts: set<string>,
    priceDates: seq<int>,
    securities: seq<Security>)

  function LotKey(lot: Lot): Key {
    (lot.accountId, lot.securityId)
  }

  function RowKey(row: CustodianRow): Key {
    (row.accountId, row.securityId)
  }

  /** The lots' quantities grouped and summed. */
  function Ledger(lots: seq<Lot>): map<Key, real> {
    if |lots| == 0 then map[]
    else
      var rest, last := Ledger(lots[..|lots| - 1]), lots[|lots| - 1];
      rest[LotKey(last) := (if LotKey(last) in rest then rest[LotKey(last)] else 0.0) + last.quantity]
  }

  /** ledger.get(key, 0) */
  function Held(ledger: map<Key, real>, key: Key): real {
    if key in ledger then ledger[key] else 0.0
  }

  method LedgerQuantities(lots: seq<Lot>) returns (ledger: map<Key, real>)
    ensures ledger == Ledger(lots)
  {
    ledger := map[];
    for k := 0 to |lots|
      invariant ledger == Ledger(lots[..k])
    {
      assert lots[..k + 1][..k] == lots[..k];
      var key := LotKey(lots[k]);
      ledger := ledger[key := Held(ledger, key) + lots[k].quantity];
    }
    assert lots[..|lots|] == lots;
  }

  // ----- dates

  ghost predicate IsMax(dates: seq<int>, m: Option<int>) {
    if |dates| == 0 then m == None
    else m.Some? && m.value in dates && forall d :: d in dates ==> d <= m.value
  }

  method LedgerAsOfDate(dates: seq<int>) returns (m: Option<int>)
    ensures IsMax(dates, m)
  {
    if |dates| == 0 {
      return None;
    }
    var best := dates[0];
    for k := 1 to |dates|
      invariant best in dates && forall i :: 0 <= i < k ==> dates[i] <= best
    {
      if best < dates[k] {
        best := dates[k];
      }
    }
    m := Some(best);
  }

  function FileDates(file: seq<CustodianRow>): set<int> {
    set i | 0 <= i < |file| :: file[i].asOf
  }

  /** At most one date break: mixed dates first, otherwise a date that is not the ledger's. */
  function DateBreaks(file: seq<CustodianRow>, ledgerDate: Option<int>): seq<Break> {
    if |file| == 0 then []
    else if |FileDates(file)| > 1 then [MixedAsOf(file[0].accountId)]
    else if ledgerDate == Some(file[0].asOf) then []
    else [StaleAsOf(file[0].accountId)]
  }

  // ----- quantities

  function QuantityBreaks(file: seq<CustodianRow>, ledger: map<Key, real>): seq<Break> {
    if |file| == 0 then []
    else
      var row := file[|file| - 1];
      QuantityBreaks(file[..|file| - 1], ledger)
        + if Held(ledger, RowKey(row)) != row.quantity
          then [QuantityMismatch(row.accountId, row.securityId, row.quantity, Held(ledger, RowKey(row)))] else []
  }

  function FileKeys(file: seq<CustodianRow>): set<Key> {
    set i | 0 <= i < |file| :: RowKey(file[i])
  }

  /** Ledger positions of the custodian's accounts that the file does not mention. */
  function Unmentioned(book: Book): set<Key> {
    var ledger := Ledger(book.lots);
    set k | k in ledger && k.0 in book.accounts && k !in FileKeys(book.file) && ledger[k] != 0.0
  }

  function LedgerBreak(ledger: map<Key, real>, key: Key): Break {
    LedgerOnly(key.0, key.1, Held(ledger, key))
  }

  function FileSecurities(file: seq<CustodianRow>): set<string> {
    set i | 0 <= i < |file| :: file[i].securityId
  }

  function SecuritiesOf(keys: seq<Key>): set<string> {
    set i | 0 <= i < |keys| :: keys[i].1
  }

  /** The securities the comparison touched: those of the file and those of the ledger-only breaks. */
  function Touched(book: Book): set<string> {
    FileSecurities(book.file) + (set k | k in Unmentioned(book) :: k.1)
  }

  // ----- identifiers

  function IdentifierOf(s: Security, scheme: Scheme): Option<string> {
    match scheme
    case Isin => s.isin
    case Cusip => s.cusip
  }

  /** The identifiers carried by touched securities; an empty one does not count. */
  function Identifiers(securities: seq<Security>, touched: set<string>, scheme: Scheme): set<string> {
    set i | 0 <= i < |securities| && securities[i].securityId in touched
            && IdentifierOf(securities[i], scheme).Some? && IdentifierOf(securities[i], scheme).value != ""
      :: IdentifierOf(securities[i], scheme).value
  }

  function Sharers(securities: seq<Security>, scheme: Scheme, x: string): set<string> {
    set i | 0 <= i < |securities| && IdentifierOf(securities[i], scheme) == Some(x) :: securities[i].securityId
  }

  function Shared(securities: seq<Security>, touched: set<string>, scheme: Scheme): set<string> {
    set x | x in Identifiers(securities, touched, scheme) && |Sharers(securities, scheme, x)| >= 2
  }

  // ----- the whole comparison

  /** s lists the set: every element once, in some order. */
  ghost predicate Lists<T(!new)>(s: seq<T>, elements: set<T>) {
    && (forall x :: x in s <==> x in elements)
    && forall i, j :: 0 <= i < j < |s| ==> s[i] != s[j]
  }

  /** The order in which the database and Python's sets yield the last two passes is open. */
  datatype Orders = Orders(unmentioned: seq<Key>, isins: seq<string>, cusips: seq<string>)

  ghost predicate ValidOrders(book: Book, o: Orders) {
    && Lists(o.unmentioned, Unmentioned(book))
    && Lists(o.isins, Shared(book.securities, Touched(book), Isin))
    && Lists(o.cusips, Shared(book.securities, Touched(book), Cusip))
  }

  function LedgerBreaks(ledger: map<Key, real>, keys: seq<Key>): (b: seq<Break>)
    ensures |b| == |keys|
  {
    seq(|keys|, i requires 0 <= i < |keys| => LedgerBreak(ledger, keys[i]))
  }

  function SymbologyBreaks(account: string, scheme: Scheme, ids: seq<string>): (b: seq<Break>)
    ensures |b| == |ids|
  {
    seq(|ids|, i requires 0 <= i < |ids| => SymbologyMismatch(account, scheme, ids[i]))
  }

  /** Only a non-empty file has its identifiers checked. */
  function SymbologyPassOf(file: seq<CustodianRow>, o: Orders): seq<Break> {
    if |file| == 0 then []
    else SymbologyBreaks(file[0].accountId, Isin, o.isins) + SymbologyBreaks(file[0].accountId, Cusip, o.cusips)
  }

  function BreaksOf(book: Book, ledgerDate: Option<int>, o: Orders): seq<Break> {
    DateBreaks(book.file, ledgerDate) + QuantityBreaks(book.file, Ledger(book.lots))
      + LedgerBreaks(Ledger(book.lots), o.unmentioned) + SymbologyPassOf(book.file, o)
  }

  /** What reconciling the book opens. */
  ghost predicate IsReconciliation(book: Book, breaks: seq<Break>) {
    exists d: Option<int>, o: Orders ::
      IsMax(book.priceDates, d) && ValidOrders(book, o) && breaks == BreaksOf(book, d, o)
  }

  // ----- the procedure

  datatype BreakRow = BreakRow(breakId: nat, ingest: string, found: Break, resolved: bool)

  datatype AuditRow = ReconBreakOpened(actor: string, breakId: nat, found: Break)

  /** The rows for breaks opened one after another. */
  function RowsOf(first: nat, ingest: string, breaks: seq<Break>): (rows: seq<BreakRow>)
    ensures |rows| == |breaks|
  {
    seq(|breaks|, i requires 0 <= i < |breaks| => BreakRow(first + i, ingest, breaks[i], false))
  }

  function EntriesOf(first: nat, actor: string, breaks: seq<Break>): (entries: seq<AuditRow>)
    ensures |entries| == |breaks|
  {
    seq(|breaks|, i requires 0 <= i < |breaks| => ReconBreakOpened(actor, first + i, breaks[i]))
  }

  /** Exactly these breaks were opened: one row and one audit entry each, in order. */
  ghost predicate Logged(rows0: seq<BreakRow>, audit0: seq<AuditRow>, rows: seq<BreakRow>, audit: seq<AuditRow>,
                         ingest: string, actor: string, breaks: seq<Break>)
  {
    rows == rows0 + RowsOf(|rows0|, ingest, breaks) && audit == audit0 + EntriesOf(|rows0|, actor, breaks)
  }

  lemma LoggedNothing(rows: seq<BreakRow>, audit: seq<AuditRow>, ingest: string, actor: string)
    ensures Logged(rows, audit, rows, audit, ingest, actor, [])
  {
  }

  lemma LoggedOneMore(rows0: seq<BreakRow>, audit0: seq<AuditRow>, rows: seq<BreakRow>, audit: seq<AuditRow>,
                      ingest: string, actor: string, breaks: seq<Break>, found: Break)
    requires Logged(rows0, audit0, rows, audit, ingest, actor, breaks)
    ensures Logged(rows0, audit0, rows + [BreakRow(|rows|, ingest, found, false)],
                   audit + [ReconBreakOpened(actor, |rows|, found)],
                   ingest, actor, breaks + [found])
  {
  }

  lemma LoggedBoth(rows0: seq<BreakRow>, audit0: seq<AuditRow>, rows1: seq<BreakRow>, audit1: seq<AuditRow>,
                   rows2: seq<BreakRow>, audit2: seq<AuditRow>, ingest: string, actor: string,
                   first: seq<Break>, second: seq<Break>)
    requires Logged(rows0, audit0, rows1, audit1, ingest, actor, first)
            && Logged(rows1, audit1, rows2, audit2, ingest, actor, second)
    ensures Logged(rows0, audit0, rows2, audit2, ingest, actor, first + second)
  {
  }

  lemma ListsOneMore<T(!new)>(s: seq<T>, elements: set<T>, x: T)
    requires Lists(s, elements) && x !in elements
    ensures Lists(s + [x], elements + {x})
  {
  }

  /** Every finite set can be listed. */
  lemma {:induction false} Listing<T(!new)>(elements: set<T>) returns (s: seq<T>)
    ensures Lists(s, elements)
    decreases elements
  {
    if elements == {} {
      s := [];
    } else {
      var x :| x in elements;
      var rest := Listing(elements - {x});
      ListsOneMore(rest, elements - {x}, x);
      assert elements - {x} + {x} == elements;
      s := rest + [x];
    }
  }

  lemma SetsGrow(file: seq<CustodianRow>, k: nat)
    requires k < |file|
    ensures FileKeys(file[..k + 1]) == FileKeys(file[..k]) + {RowKey(file[k])}
    ensures FileSecurities(file[..k + 1]) == FileSecurities(file[..k]) + {file[k].securityId}
  {
  }

  lemma SecuritiesGrow(keys: seq<Key>, key: Key)
    ensures SecuritiesOf(keys + [key]) == SecuritiesOf(keys) + {key.1}
  {
    var more := keys + [key];
    assert more[|keys|] == key;
    forall x | x in SecuritiesOf(keys)
      ensures x in SecuritiesOf(more)
    {
      var i :| 0 <= i < |keys| && keys[i].1 == x;
      assert more[i].1 == x;
    }
  }

  class Reconciler {
    var ingests: map<string, Book>
    var rows: seq<BreakRow>
    var audit: seq<AuditRow>

    constructor (known: map<string, Book>)
      ensures ingests == known && rows == [] && audit == []
    {
      ingests, rows, audit := known, [], [];
    }

    /** The break id is the next unused one, standing for a fresh uuid. */
    method OpenBreak(ingest: string, actor: string, found: Break)
      modifies this`rows, this`audit
      ensures rows == old(rows) + [BreakRow(|old(rows)|, ingest, found, false)]
      ensures audit == old(audit) + [ReconBreakOpened(actor, |old(rows)|, found)]
    {
      audit := audit + [ReconBreakOpened(actor, |rows|, found)];
      rows := rows + [BreakRow(|rows|, ingest, found, false)];
    }

    method AsOfDateBreaks(book: Book, ingest: string, actor: string)
      returns (breaks: seq<Break>, ghost date: Option<int>)
      modifies this`rows, this`audit
      ensures IsMax(book.priceDates, date) && breaks == DateBreaks(book.file, date)
      ensures Logged(old(rows), old(audit), rows, audit, ingest, actor, breaks)
    {
      breaks := [];
      var ledgerDate := LedgerAsOfDate(book.priceDates);
      date := ledgerDate;
      if |book.file| == 0 {
        return;
      }
      var found;
      if |FileDates(book.file)| > 1 {
        found := MixedAsOf(book.file[0].accountId);
      } else if ledgerDate == Some(book.file[0].asOf) {
        return;
      } else {
        found := StaleAsOf(book.file[0].accountId);
      }
      OpenBreak(ingest, actor, found);
      breaks := [found];
    }

    method QuantityPass(book: Book, ledger: map<Key, real>, ingest: string, actor: string)
      returns (breaks: seq<Break>, seen: set<Key>, securityIds: set<string>)
      modifies this`rows, this`audit
      ensures breaks == QuantityBreaks(book.file, ledger)
      ensures seen == FileKeys(book.file) && securityIds == FileSecurities(book.file)
      ensures Logged(old(rows), old(audit), rows, audit, ingest, actor, breaks)
    {
      breaks, seen, securityIds := [], {}, {};
      for k := 0 to |book.file|
        invariant breaks == QuantityBreaks(book.file[..k], ledger)
        invariant seen == FileKeys(book.file[..k]) && securityIds == FileSecurities(book.file[..k])
        invariant Logged(old(rows), old(audit), rows, audit, ingest, actor, breaks)
      {
        assert book.file[..k + 1][..k] == book.file[..k];
        var row := book.file[k];
        SetsGrow(book.file, k);
        seen := seen + {RowKey(row)};
        securityIds := securityIds + {row.securityId};
        var quantity := Held(ledger, RowKey(row));
        if quantity != row.quantity {
          var found := QuantityMismatch(row.accountId, row.securityId, row.quantity, quantity);
          ghost var was, log := rows, audit;
          OpenBreak(ingest, actor, found);
          LoggedOneMore(old(rows), old(audit), was, log, ingest, actor, breaks, found);
          breaks := breaks + [found];
        }
      }
      assert book.file[..|book.file|] == book.file;
    }

    method LedgerPass(book: Book, ledger: map<Key, real>, seen: set<Key>, touched: set<string>, ingest: string,
                      actor: string)
      returns (breaks: seq<Break>, securityIds: set<string>, ghost order: seq<Key>)
      requires ledger == Ledger(book.lots) && seen == FileKeys(book.file)
      modifies this`rows, this`audit
      ensures Lists(order, Unmentioned(book)) && breaks == LedgerBreaks(ledger, order)
      ensures securityIds == touched + SecuritiesOf(order)
      ensures Logged(old(rows), old(audit), rows, audit, ingest, actor, breaks)
    {
      hide Ledger;
      breaks, order, securityIds := [], [], touched;
      var pending := ledger.Keys;
      while pending != {}
        invariant pending <= ledger.Keys
        invariant Lists(order, Unmentioned(book) - pending) && breaks == LedgerBreaks(ledger, order)
        invariant securityIds == touched + SecuritiesOf(order)
        invariant Logged(old(rows), old(audit), rows, audit, ingest, actor, breaks)
        decreases pending
      {
        var key :| key in pending;
        if key.0 in book.accounts && key !in seen && ledger[key] != 0.0 {
          var found := LedgerBreak(ledger, key);
          ghost var was, log := rows, audit;
          OpenBreak(ingest, actor, found);
          ListsOneMore(order, Unmentioned(book) - pending, key);
          assert Unmentioned(book) - (pending - {key}) == Unmentioned(book) - pending + {key};
          SecuritiesGrow(order, key);
          securityIds := securityIds + {key.1};
          LoggedOneMore(old(rows), old(audit), was, log, ingest, actor, breaks, found);
          breaks, order := breaks + [found], order + [key];
        } else {
          assert Unmentioned(book) - (pending - {key}) == Unmentioned(book) - pending;
        }
        pending := pending - {key};
      }
      assert Unmentioned(book) - pending == Unmentioned(book);
    }

    method SharedPass(account: string, securities: seq<Security>, touched: set<string>, scheme: Scheme, ingest: string,
                      actor: string)
      returns (breaks: seq<Break>, ghost order: seq<string>)
      modifies this`rows, this`audit
      ensures Lists(order, Shared(securities, touched, scheme)) && breaks == SymbologyBreaks(account, scheme, order)
      ensures Logged(old(rows), old(audit), rows, audit, ingest, actor, breaks)
    {
      breaks, order := [], [];
      var pending := Identifiers(securities, touched, scheme);
      ghost var shared := Shared(securities, touched, scheme);
      while pending != {}
        invariant pending <= Identifiers(securities, touched, scheme)
        invariant Lists(order, shared - pending) && breaks == SymbologyBreaks(account, scheme, order)
        invariant Logged(old(rows), old(audit), rows, audit, ingest, actor, breaks)
        decreases pending
      {
        var x :| x in pending;
        if |Sharers(securities, scheme, x)| >= 2 {
          var found := SymbologyMismatch(account, scheme, x);
          ghost var was, log := rows, audit;
          OpenBreak(ingest, actor, found);
          ListsOneMore(order, shared - pending, x);
          assert shared - (pending - {x}) == shared - pending + {x};
          LoggedOneMore(old(rows), old(audit), was, log, ingest, actor, breaks, found);
          breaks, order := breaks + [found], order + [x];
        } else {
          assert shared - (pending - {x}) == shared - pending;
        }
        pending := pending - {x};
      }
      assert shared - pending == shared;
    }

    /** Identifiers are checked only for a non-empty file. */
    method SymbologyPass(book: Book, touched: set<string>, ingest: string, actor: string)
      returns (breaks: seq<Break>, ghost isins: seq<string>, ghost cusips: seq<string>)
      requires touched == Touched(book)
      modifies this`rows, this`audit
      ensures Lists(isins, Shared(book.securities, Touched(book), Isin))
      ensures Lists(cusips, Shared(book.securities, Touched(book), Cusip))
      ensures forall o: Orders :: o.isins == isins && o.cusips == cusips ==> breaks == SymbologyPassOf(book.file, o)
      ensures Logged(old(rows), old(audit), rows, audit, ingest, actor, breaks)
    {
      hide Ledger, Lists, Shared, Logged;
      if |book.file| == 0 {
        breaks := [];
        isins := Listing(Shared(book.securities, Touched(book), Isin));
        cusips := Listing(Shared(book.securities, Touched(book), Cusip));
        LoggedNothing(rows, audit, ingest, actor);
        return;
      }
      var account := book.file[0].accountId;
      ghost var rows0, audit0 := rows, audit;
      var first, second;
      first, isins := SharedPass(account, book.securities, touched, Isin, ingest, actor);
      ghost var rows1, audit1 := rows, audit;
      second, cusips := SharedPass(account, book.securities, touched, Cusip, ingest, actor);
      LoggedBoth(rows0, audit0, rows1, audit1, rows, audit, ingest, actor, first, second);
      breaks := first + second;
    }

    /** None when the ingest run is unknown. */
    method ReconcileIngest(ingest: string, actor: string) returns (breaks: Option<seq<Break>>)
      modifies this`rows, this`audit
      ensures breaks.None? <==> ingest !in ingests
      ensures breaks.None? ==> rows == old(rows) && audit == old(audit)
      ensures breaks.Some? ==>
              && IsReconciliation(ingests[ingest], breaks.value)
              && Logged(old(rows), old(audit), rows, audit, ingest, actor, breaks.value)
    {
      if ingest !in ingests {
        return None;
      }
      var book := ingests[ingest];
      var ledger := LedgerQuantities(book.lots);
      ghost var rows0, audit0 := rows, audit;
      var dates, date := AsOfDateBreaks(book, ingest, actor);
      ghost var rows1, audit1 := rows, audit;
      var mismatches, seen, securityIds := QuantityPass(book, ledger, ingest, actor);
      LoggedBoth(rows0, audit0, rows1, audit1, rows, audit, ingest, actor, dates, mismatches);
      rows1, audit1 := rows, audit;
      var missing, touched, unmentioned := LedgerPass(book, ledger, seen, securityIds, ingest, actor);
      assert touched == Touched(book);
      LoggedBoth(rows0, audit0, rows1, audit1, rows, audit, ingest, actor, dates + mismatches, missing);
      rows1, audit1 := rows, audit;
      var symbols, isins, cusips := SymbologyPass(book, touched, ingest, actor);
      LoggedBoth(rows0, audit0, rows1, audit1, rows, audit, ingest, actor, dates + mismatches + missing, symbols);
      breaks := Some(dates + mismatches + missing + symbols);
      ghost var orders := Orders(unmentioned, isins, cusips);
      assert IsMax(book.priceDates, date) && ValidOrders(book, orders) && breaks.value == BreaksOf(book, date, orders);
    }
  }
}
