/** What every reachable state satisfies, and what never changes once it is so. */
module WorkflowSafety {
  import opened Wrappers
  import opened Workflow

  // ----- what a step may change

  predicate Terminal(status: OrderStatus) {
    status.Filled? || status.Cancelled?
  }

  predicate Reaches(a: OrderStatus, b: OrderStatus) {
    a == b || (a.Staged? && !b.Staged?) || (a.Submitted? && Terminal(b))
  }

  ghost predicate ApprovalKept(a: Approval, b: Approval) {
    if a.status.Pending? then b == a.(status := b.status, reviewer := b.reviewer, reviewedAt := b.reviewedAt)
    else b == a
  }

  ghost predicate OrderKept(a: Order, b: Order) {
    && Reaches(a.status, b.status) && b == a.(status := b.status, updatedAt := b.updatedAt)
    && (Terminal(a.status) ==> b == a)
  }

  ghost predicate ApprovalsGrow(before: map<string, Approval>, after: map<string, Approval>) {
    forall id :: id in before ==> id in after && ApprovalKept(before[id], after[id])
  }

  ghost predicate OrdersGrow(before: seq<Order>, after: seq<Order>) {
    |before| <= |after| && forall i :: 0 <= i < |before| ==> OrderKept(before[i], after[i])
  }

  ghost predicate RunsGrow(s: State, t: State) {
    forall r :: r in s.runs ==>
        r in t.runs && t.runs[r] == s.runs[r] && TradesFor(t.trades, r) == TradesFor(s.trades, r)
  }

  ghost predicate ReportsGrow(s: State, t: State) {
    forall k :: k in s.reports ==> k in t.reports && (s.reports[k] ==> t.reports[k])
  }

  /**
   * Decided approvals and terminal orders stay as they are, orders only move forward, a run's trades are fixed,
   * a PDF stays, and the audit log and the events are append-only.
   */
  ghost predicate Evolves(s: State, t: State) {
    && ApprovalsGrow(s.approvals, t.approvals) && OrdersGrow(s.orders, t.orders)
    && RunsGrow(s, t) && ReportsGrow(s, t)
    && s.audit <= t.audit && s.events <= t.events
  }

  lemma EvolvesTransitive(s: State, t: State, u: State)
    requires Evolves(s, t) && Evolves(t, u)
    ensures Evolves(s, u)
  {
  }

  lemma {:induction false} TradesAppend(trades: seq<TradeRow>, more: seq<TradeRow>, runId: string)
    ensures TradesFor(trades + more, runId) == TradesFor(trades, runId) + TradesFor(more, runId)
  {
    if |more| == 0 {
      assert trades + more == trades;
    } else {
      var n := |more| - 1;
      TradesAppend(trades, more[..n], runId);
      assert (trades + more)[..|trades + more| - 1] == trades + more[..n];
    }
  }

  lemma {:induction false} TradesOfOne(runId: string, payloads: seq<Payload>, other: string)
    ensures TradesFor(RowsOf(runId, payloads), other) == if other == runId then payloads else []
  {
    if |payloads| > 0 {
      var n := |payloads| - 1;
      TradesOfOne(runId, payloads[..n], other);
      assert RowsOf(runId, payloads)[..n] == RowsOf(runId, payloads[..n]);
    }
  }

  /** Persisting a run under a fresh id gives that run its trades and leaves every other run's alone. */
  lemma PersistedTrades(s: State, runId: string, household: string, payloads: seq<Payload>, actor: string,
                        other: string)
    ensures TradesFor(Persisted(s, runId, household, payloads, actor).trades, other)
         == TradesFor(s.trades, other) + if other == runId then payloads else []
  {
    TradesAppend(s.trades, RowsOf(runId, payloads), other);
    TradesOfOne(runId, payloads, other);
  }

  lemma RequestEvolves(s: State, requestId: string, subject: Subject, subjectId: string, runId: Option<string>,
                       household: string, now: int)
    requires requestId !in s.approvals
    ensures Evolves(s, Requested(s, requestId, subject, subjectId, runId, household, now))
  {
    hide TradesFor;
  }

  lemma PersistEvolves(s: State, runId: string, household: string, payloads: seq<Payload>, actor: string)
    requires runId !in s.runs
    ensures Evolves(s, Persisted(s, runId, household, payloads, actor))
  {
    forall r | r in s.runs
      ensures TradesFor(Persisted(s, runId, household, payloads, actor).trades, r) == TradesFor(s.trades, r)
    {
      PersistedTrades(s, runId, household, payloads, actor, r);
    }
  }

  lemma DecideEvolves(s: State, requestId: string, status: ApprovalStatus, reviewer: string, now: int)
    ensures Evolves(s, Decided(s, requestId, status, reviewer, now).state)
  {
    hide TradesFor;
  }

  lemma StageEvolves(s: State, approvalId: string, actor: string, ids: seq<string>, now: int)
    requires approvalId in s.approvals && s.approvals[approvalId].runId.Some? ==>
               |TradesFor(s.trades, s.approvals[approvalId].runId.value)| <= |ids|
    ensures Evolves(s, StagedFrom(s, approvalId, actor, ids, now).state)
  {
    hide TradesFor;
  }

  /** A status change that is accepted touches one row, one audit entry and, for a fill, one event. */
  lemma MoveShape(s: State, orderId: string, status: OrderStatus, actor: string, now: int) returns (i: nat)
    ensures i == IndexOf(s.orders, orderId)
    ensures var t := Moved(s, orderId, status, actor, now).state;
            t == s
            || (&& i < |s.orders| && s.orders[i].orderId == orderId
                && status != s.orders[i].status && status in Allowed(s.orders[i].status)
                && t == s.(orders := s.orders[i := s.orders[i].(status := status, updatedAt := now)],
                           audit := s.audit + [Entry(actor, OrderMoved(status), orderId, s.orders[i].household)],
                           events := t.events)
                && var filled := OrderFilled(s.orders[i].household, orderId, s.orders[i].approvalId);
                   t.events == s.events + if status.Filled? then [filled] else [])
  {
    i := IndexOf(s.orders, orderId);
  }

  lemma OneRowMoves(orders: seq<Order>, i: nat, status: OrderStatus, now: int)
    requires i < |orders| && status in Allowed(orders[i].status) && status != orders[i].status
    ensures OrdersGrow(orders, orders[i := orders[i].(status := status, updatedAt := now)])
  {
  }

  lemma MoveEvolves(s: State, orderId: string, status: OrderStatus, actor: string, now: int)
    ensures Evolves(s, Moved(s, orderId, status, actor, now).state)
  {
    hide TradesFor, Moved, Allowed, IndexOf, OrdersGrow;
    var t := Moved(s, orderId, status, actor, now).state;
    var i := MoveShape(s, orderId, status, actor, now);
    if t == s {
      SelfEvolves(s);
    } else {
      OneRowMoves(s.orders, i, status, now);
    }
  }

  lemma PdfEvolves(s: State, key: ReportKey, delivery: Delivery, rendering: Rendering, entry: Entry)
    ensures Evolves(s, WithPdf(s, key, delivery, rendering))
    ensures Evolves(s, Audited(WithPdf(s, key, delivery, rendering), entry))
  {
    hide TradesFor;
  }

  lemma SignOffEvolves(s: State, key: ReportKey, reviewer: string, requestId: string, now: int)
    requires requestId !in s.approvals
    ensures Evolves(s, SignedOff(s, key, reviewer, requestId, now))
  {
  }

  lemma ApproveReportEvolves(s: State, key: ReportKey, reviewer: string, requestId: string, now: int,
                             gate: Option<ApprovalStatus>, rendering: Rendering)
    requires requestId !in s.approvals
    ensures Evolves(s, ReportApproved(s, key, reviewer, requestId, now, gate, rendering).state)
  {
    SignOffEvolves(s, key, reviewer, requestId, now);
    var signed := SignedOff(s, key, reviewer, requestId, now);
    var delivery := DeliveryOf(signed, gate, rendering);
    var entry := Entry(reviewer, ReportSignedOff(delivery), key.snapshot, key.household);
    PdfEvolves(signed, key, delivery, rendering, entry);
    if key in s.reports {
      hide SignedOff, Evolves, WithPdf, Audited;
      EvolvesTransitive(s, signed, WithPdf(signed, key, delivery, rendering));
      EvolvesTransitive(s, signed, Audited(WithPdf(signed, key, delivery, rendering), entry));
    } else {
      assert Evolves(s, s) by { SelfEvolves(s); }
    }
  }

  lemma SelfEvolves(s: State)
    ensures Evolves(s, s)
  {
    hide TradesFor;
  }

  lemma PersistRunEvolves(s: State, c: Command)
    requires Admissible(s, c) && c.PersistRun?
    ensures Evolves(s, Step(s, c).state)
  {
    PersistEvolves(s, c.runId, c.household, c.payloads, c.actor);
    if c.queued.Some? {
      var run := Persisted(s, c.runId, c.household, c.payloads, c.actor);
      RequestEvolves(run, c.queued.value, OptimizationRun, c.runId, Some(c.runId), c.household, c.now);
      EvolvesTransitive(s, run, Step(s, c).state);
    }
  }

  /** Every step only evolves the rows. */
  lemma StepEvolves(s: State, c: Command)
    requires Admissible(s, c)
    ensures Evolves(s, Step(s, c).state)
  {
    hide Evolves, Requested, Decided, StagedFrom, Moved, WithPdf, ReportApproved, TradesFor;
    match c
    case PersistRun(runId, household, payloads, queued, actor, now) => PersistRunEvolves(s, c);
    case RequestForRun(requestId, runId, household, now) =>
      RequestEvolves(s, requestId, OptimizationRun, runId, Some(runId), household, now);
    case RequestForReport(requestId, snapshot, household, now) =>
      RequestEvolves(s, requestId, ReportSnapshot, snapshot, None, household, now);
    case Decide(requestId, decision, reviewer, now) => DecideEvolves(s, requestId, decision, reviewer, now);
    case StageOrders(approvalId, actor, ids, now) => StageEvolves(s, approvalId, actor, ids, now);
    case MoveOrder(orderId, status, actor, now) => MoveEvolves(s, orderId, status, actor, now);
    case OpenBreak(breakId, actor, household) => BreaksEvolve(s, c);
    case ResolveBreak(breakId) => BreaksEvolve(s, c);
    case BuildReport(key, actor, gate, rendering) =>
      var delivery := DeliveryOf(s, gate, rendering);
      PdfEvolves(s, key, delivery, rendering, Entry(actor, ReportBuilt(delivery), key.snapshot, key.household));
    case ApproveReport(key, reviewer, requestId, now, gate, rendering) =>
      ApproveReportEvolves(s, key, reviewer, requestId, now, gate, rendering);
  }

  lemma BreaksEvolve(s: State, c: Command)
    requires Admissible(s, c) && (c.OpenBreak? || c.ResolveBreak?)
    ensures Evolves(s, Step(s, c).state)
  {
    hide TradesFor;
  }

  lemma {:induction false} AfterEvolves(s: State, calls: seq<Command>)
    requires AllAdmissible(s, calls)
    ensures Evolves(s, After(s, calls))
    decreases |calls|
  {
    hide Evolves, Step, Admissible;
    if |calls| == 0 {
      SelfEvolves(s);
    } else {
      var t := Step(s, calls[0]).state;
      StepEvolves(s, calls[0]);
      AfterEvolves(t, calls[1..]);
      EvolvesTransitive(s, t, After(s, calls));
    }
  }

  /** A piece of work only evolves the rows, however it ends. */
  lemma EndEvolves(s: State, work: Work)
    requires Admits(s, work)
    ensures Evolves(s, End(s, work))
  {
    hide TradesFor, After, AllAdmissible;
    if work.Work? {
      AfterEvolves(s, work.calls);
    }
    SelfEvolves(s);
  }

  /**
   * Along every run: what an earlier state shows of a decided approval, a terminal order, a run's trades, a PDF or
   * the audit log, every later state shows too.
   */
  lemma {:induction false} RunEvolves(states: seq<State>, works: seq<Work>, i: nat, j: nat)
    requires IsRun(states, works) && i <= j < |states|
    ensures Evolves(states[i], states[j])
    decreases j - i
  {
    hide Evolves, End, Admits;
    if i == j {
      SelfEvolves(states[i]);
    } else {
      RunEvolves(states, works, i, j - 1);
      EndEvolves(states[j - 1], works[j - 1]);
      EvolvesTransitive(states[i], states[j - 1], states[j]);
    }
  }
}
