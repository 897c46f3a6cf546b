/** A reconciliation and the delivery gate: what its breaks mean for every report until they are resolved. */
module ReconciliationGate {
  import opened Workflow
  import opened Rollbacks
  import Reconciliation
  import ReconciliationTheorems

  /** The breaks of a reconciliation as calls, one fresh id each. */
  function OpenCalls(ids: seq<string>, actor: string, household: string): (calls: seq<Command>)
    ensures |calls| == |ids|
  {
    seq(|ids|, i requires 0 <= i < |ids| => OpenBreak(ids[i], actor, household))
  }

  /** Opening breaks adds exactly these ids, open, and touches neither reports nor approvals. */
  lemma {:induction false} Opens(s: State, ids: seq<string>, actor: string, household: string)
    ensures AllAdmissible(s, OpenCalls(ids, actor, household))
    ensures var t := After(s, OpenCalls(ids, actor, household));
            && t.breaks.Keys == s.breaks.Keys + (set id | id in ids)
            && (forall id :: id in t.breaks ==> t.breaks[id] == (if id in ids then false else s.breaks[id]))
            && t.reports == s.reports && t.approvals == s.approvals
    decreases |ids|
  {
    if |ids| > 0 {
      var calls := OpenCalls(ids, actor, household);
      assert calls[1..] == OpenCalls(ids[1..], actor, household);
      Opens(Step(s, calls[0]).state, ids[1..], actor, household);
      assert ids == [ids[0]] + ids[1..];
    }
  }

  /** File and ledger agree: on the dates, on every compared position, and on whose identifiers are whose. */
  ghost predicate Agree(book: Reconciliation.Book) {
    && ReconciliationTheorems.DatesAgree(book) && ReconciliationTheorems.Disagreeing(book) == {}
    && ReconciliationTheorems.SharedCount(book) == 0
  }

  lemma NoBreakIffAgree(book: Reconciliation.Book, breaks: seq<Reconciliation.Break>)
    requires ReconciliationTheorems.DistinctRows(book.file) && Reconciliation.IsReconciliation(book, breaks)
    ensures breaks == [] <==> Agree(book)
  {
    hide ReconciliationTheorems.DatesAgree, ReconciliationTheorems.Disagreeing, ReconciliationTheorems.SharedCount,
         Reconciliation.IsReconciliation;
    ReconciliationTheorems.BreaksCounted(book, breaks);
  }

  /** After a reconciliation delivery is blocked exactly when it was before, or file and ledger disagree. */
  lemma BlockedIff(s: State, book: Reconciliation.Book, breaks: seq<Reconciliation.Break>, ids: seq<string>,
                   actor: string, household: string)
    requires ReconciliationTheorems.DistinctRows(book.file) && Reconciliation.IsReconciliation(book, breaks)
    requires |ids| == |breaks| && forall id :: id in ids ==> id !in s.breaks
    ensures AllAdmissible(s, OpenCalls(ids, actor, household))
    ensures AnyOpen(After(s, OpenCalls(ids, actor, household)).breaks) <==> AnyOpen(s.breaks) || !Agree(book)
  {
    hide Agree, Reconciliation.IsReconciliation, After, OpenCalls;
    NoBreakIffAgree(book, breaks);
    Opens(s, ids, actor, household);
    var t := After(s, OpenCalls(ids, actor, household));
    if |ids| > 0 {
      assert ids[0] in t.breaks && !t.breaks[ids[0]];
    }
    if b :| b in s.breaks && !s.breaks[b] {
      assert b in t.breaks && !t.breaks[b];
    }
  }

  // ----- while a break stays open

  ghost predicate IsOpen(s: State, b: string) {
    b in s.breaks && !s.breaks[b]
  }

  predicate Resolves(calls: seq<Command>, b: string) {
    exists i :: 0 <= i < |calls| && calls[i] == ResolveBreak(b)
  }

  /** Work that asks the gate and does not try to resolve the break. */
  predicate Respects(work: Work, b: string) {
    work.Work? && !Resolves(work.calls, b)
  }

  lemma StepBlocked(s: State, c: Command, b: string, key: ReportKey)
    requires Admissible(s, c) && IsOpen(s, b) && c != ResolveBreak(b)
    ensures IsOpen(Step(s, c).state, b) && (HasPdf(Step(s, c).state, key) <==> HasPdf(s, key))
  {
    StepPdfs(s, c, key);
    if c.ApproveReport? {
      LeavesPdfIff(s, c);
    }
    hide TradesFor, IndexOf, HasOrders, Allowed, FreshOrderIds, Fresh, IsLatestStatus, HasPdf, LeavesPdf;
    assert AnyOpen(s.breaks);
  }

  lemma {:induction false} AfterBlocked(s: State, calls: seq<Command>, b: string, key: ReportKey)
    requires AllAdmissible(s, calls) && IsOpen(s, b) && !Resolves(calls, b)
    ensures IsOpen(After(s, calls), b) && (HasPdf(After(s, calls), key) <==> HasPdf(s, key))
    decreases |calls|
  {
    hide Step, Admissible, IsOpen, HasPdf;
    if |calls| > 0 {
      assert calls[0] != ResolveBreak(b) && !Resolves(calls[1..], b) by {
        assert forall i :: 0 <= i < |calls[1..]| ==> calls[1..][i] == calls[i + 1];
      }
      StepBlocked(s, calls[0], b, key);
      AfterBlocked(Step(s, calls[0]).state, calls[1..], b, key);
    }
  }

  lemma EndBlocked(s: State, work: Work, b: string, key: ReportKey)
    requires Admits(s, work) && IsOpen(s, b) && Respects(work, b)
    ensures IsOpen(End(s, work), b) && (HasPdf(End(s, work), key) <==> HasPdf(s, key))
  {
    hide After, AllAdmissible;
    AfterBlocked(s, work.calls, b, key);
  }

  /** Along every run: as long as all work respects an open break, it stays open and no PDF appears. */
  lemma {:induction false} OpenBreakBlocks(states: seq<State>, works: seq<Work>, i: nat, j: nat, b: string,
                                           key: ReportKey)
    requires IsRun(states, works) && i <= j < |states| && IsOpen(states[i], b)
    requires forall m :: i <= m < j ==> Respects(works[m], b)
    ensures IsOpen(states[j], b) && (HasPdf(states[j], key) <==> HasPdf(states[i], key))
    decreases j - i
  {
    hide End, Admits, IsOpen, HasPdf, Respects;
    if i < j {
      OpenBreakBlocks(states, works, i, j - 1, b, key);
      EndBlocked(states[j - 1], works[j - 1], b, key);
    }
  }

  /**
   * When file and ledger disagree, the committed reconciliation lets no report be delivered from then on, until some
   * session resolves each of its breaks or a PDF is rendered without asking.
   */
  lemma DisagreementBlocksDelivery(states: seq<State>, works: seq<Work>, i: nat, j: nat,
                                   book: Reconciliation.Book, breaks: seq<Reconciliation.Break>, ids: seq<string>,
                                   actor: string, household: string, id: string, key: ReportKey)
    requires IsRun(states, works) && i < j < |states|
    requires ReconciliationTheorems.DistinctRows(book.file) && Reconciliation.IsReconciliation(book, breaks)
    requires |ids| == |breaks| && works[i] == Work(OpenCalls(ids, actor, household), true)
    requires id in ids && forall m :: i < m < j ==> Respects(works[m], id)
    ensures !Agree(book) && AnyOpen(states[j].breaks) && (HasPdf(states[j], key) <==> HasPdf(states[i], key))
  {
    hide Agree, Reconciliation.IsReconciliation, OpenCalls, HasPdf, Respects, After;
    NoBreakIffAgree(book, breaks);
    Opens(states[i], ids, actor, household);
    SamePdf(states[i], states[i + 1], key);
    OpenBreakBlocks(states, works, i + 1, j, id, key);
    assert IsOpen(states[j], id);
  }

  lemma SamePdf(s: State, t: State, key: ReportKey)
    requires t.reports == s.reports
    ensures HasPdf(t, key) == HasPdf(s, key)
  {
  }
}
