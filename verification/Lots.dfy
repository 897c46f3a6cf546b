/** Tax lots and the order of their identifiers (data/ledger). */
module Lots {
  import opened Wrappers

  /** A tax lot. Dates are day numbers. */
  datatype Lot = Lot(
    lotId: string,
    accountId: string,
    securityId: string,
    quantity: real,
    costBasisPerShare: real,
    acquisitionDate: int,
    washSaleChainId: Option<string>)

  /** Lexicographic order, as Python compares strings. */
  predicate Le(a: string, b: string) {
    |a| == 0 || (|b| > 0 && (a[0] < b[0] || (a[0] == b[0] && Le(a[1..], b[1..]))))
  }

  lemma {:induction false} LeTotal(a: string, b: string)
    ensures Le(a, b) || Le(b, a)
  {
    if |a| > 0 && |b| > 0 {
      LeTotal(a[1..], b[1..]);
    }
  }

  lemma {:induction false} LeTransitive(a: string, b: string, c: string)
    requires Le(a, b) && Le(b, c)
    ensures Le(a, c)
  {
    if |a| > 0 && a[0] == b[0] == c[0] {
      LeTransitive(a[1..], b[1..], c[1..]);
    }
  }

  lemma {:induction false} LeAntisymmetric(a: string, b: string)
    requires Le(a, b) && Le(b, a)
    ensures a == b
  {
    if |a| > 0 {
      LeAntisymmetric(a[1..], b[1..]);
      assert a == [a[0]] + a[1..] && b == [b[0]] + b[1..];
    }
  }

  ghost predicate IsLeast(m: string, ids: set<string>) {
    m in ids && forall x :: x in ids ==> Le(m, x)
  }

  lemma LeastUnique(a: string, b: string, ids: set<string>)
    requires IsLeast(a, ids) && IsLeast(b, ids)
    ensures a == b
  {
    LeAntisymmetric(a, b);
  }

  /** min(members) */
  method LeastOf(members: seq<string>) returns (m: string)
    requires |members| > 0
    ensures IsLeast(m, set x | x in members)
  {
    m := members[0];
    LeTotal(m, m);
    var k := 1;
    while k < |members|
      invariant 1 <= k <= |members| && m in members
      invariant forall i :: 0 <= i < k ==> Le(m, members[i])
    {
      LeTotal(m, members[k]);
      if !Le(m, members[k]) {
        forall i | 0 <= i < k ensures Le(members[k], members[i]) { LeTransitive(members[k], m, members[i]); }
        m := members[k];
        LeTotal(m, m);
      }
      k := k + 1;
    }
  }
}
