/** Safety of the workflow in every reachable state. */
module WorkflowInvariants {
  import opened Wrappers
  import opened Workflow
  import opened WorkflowSafety

  /** Optimization subjects, and only they, carry their run; a decided request names its reviewer. */
  ghost predicate Typed(approvals: map<string, Approval>) {
    forall id :: id in approvals ==>
      && (approvals[id].subject.OptimizationRun? <==> approvals[id].runId.Some?)
      && (approvals[id].runId.Some? ==> approvals[id].subjectId == approvals[id].runId.value)
      && (approvals[id].status.Pending? || (approvals[id].reviewer.Some? && approvals[id].reviewedAt.Some?))
  }

  /** The order's approval is an approved optimization request of the order's own run. */
  ghost predicate Backed(o: Order, approvals: map<string, Approval>) {
    && o.approvalId in approvals
    && var a := approvals[o.approvalId];
       a.status.Approved? && a.subject.OptimizationRun? && a.runId == Some(o.runId) && a.household == o.household
  }

  ghost predicate OrdersBacked(s: State) {
    forall i :: 0 <= i < |s.orders| ==> Backed(s.orders[i], s.approvals)
  }

  ghost predicate WasStaged(audit: seq<Entry>, approvalId: string) {
    exists k :: 0 <= k < |audit| && audit[k].action.OrdersStaged? && audit[k].resource == approvalId
  }

  /** A staged approval has exactly the orders its run has trades; an unstaged one has none. */
  ghost predicate OneToOne(s: State) {
    forall id ::
      if WasStaged(s.audit, id) then
        && id in s.approvals && s.approvals[id].runId.Some?
        && OrdersFor(s.orders, id) == TradesFor(s.trades, s.approvals[id].runId.value)
      else OrdersFor(s.orders, id) == []
  }

  ghost predicate SignedFor(approvals: map<string, Approval>, snapshot: string) {
    exists id ::
      && id in approvals && IsRequestFor(approvals[id], snapshot)
      && approvals[id].status.Approved? && approvals[id].reviewer.Some?
  }

  /** No PDF of this report without a named human approval of its snapshot. */
  ghost predicate KeySigned(s: State, key: ReportKey) {
    HasPdf(s, key) ==> SignedFor(s.approvals, key.snapshot)
  }

  ghost predicate PdfsSigned(s: State) {
    forall k :: k in s.reports && s.reports[k] ==> SignedFor(s.approvals, k.snapshot)
  }

  ghost predicate DistinctOrders(orders: seq<Order>) {
    forall i, j :: 0 <= i < j < |orders| ==> orders[i].orderId != orders[j].orderId
  }

  /** The invariants of the rows alone. */
  ghost predicate RowsSafe(s: State) {
    Typed(s.approvals) && OrdersBacked(s) && OneToOne(s) && DistinctOrders(s.orders)
  }

  ghost predicate Safe(s: State) {
    RowsSafe(s) && PdfsSigned(s)
  }

  // ----- small facts

  lemma StagedAppend(audit: seq<Entry>, entry: Entry, id: string)
    ensures WasStaged(audit + [entry], id)
            <==> WasStaged(audit, id) || (entry.action.OrdersStaged? && entry.resource == id)
  {
    var more := audit + [entry];
    if k :| 0 <= k < |audit| && audit[k].action.OrdersStaged? && audit[k].resource == id {
      assert more[k] == audit[k];
    }
    if entry.action.OrdersStaged? && entry.resource == id {
      assert more[|audit|] == entry;
    }
  }

  lemma {:induction false} OrdersAppend(orders: seq<Order>, more: seq<Order>, id: string)
    ensures OrdersFor(orders + more, id) == OrdersFor(orders, id) + OrdersFor(more, id)
  {
    if |more| == 0 {
      assert orders + more == orders;
    } else {
      var n := |more| - 1;
      OrdersAppend(orders, more[..n], id);
      assert (orders + more)[..|orders + more| - 1] == orders + more[..n];
    }
  }

  lemma {:induction false} OrdersOfNew(approvalId: string, runId: string, household: string, payloads: seq<Payload>,
                                       ids: seq<string>,
                                       now: int, other: string)
    requires |payloads| <= |ids|
    ensures OrdersFor(NewOrders(approvalId, runId, household, payloads, ids, now), other)
         == if other == approvalId then payloads else []
  {
    if |payloads| > 0 {
      var n := |payloads| - 1;
      OrdersOfNew(approvalId, runId, household, payloads[..n], ids, now, other);
      assert NewOrders(approvalId, runId, household, payloads, ids, now)[..n]
          == NewOrders(approvalId, runId, household, payloads[..n], ids, now);
    }
  }

  lemma {:induction false} OrdersMove(orders: seq<Order>, i: nat, status: OrderStatus, now: int, id: string)
    requires i < |orders|
    ensures OrdersFor(orders[i := orders[i].(status := status, updatedAt := now)], id) == OrdersFor(orders, id)
  {
    var n := |orders| - 1;
    var moved := orders[i := orders[i].(status := status, updatedAt := now)];
    if i < n {
      OrdersMove(orders[..n], i, status, now, id);
      assert moved[..n] == orders[..n][i := orders[..n][i].(status := status, updatedAt := now)];
    } else {
      assert moved[..n] == orders[..n];
    }
  }

  lemma {:induction false} HasOrdersIff(orders: seq<Order>, id: string)
    ensures HasOrders(orders, id) <==> OrdersFor(orders, id) != []
  {
    if |orders| > 0 {
      var n := |orders| - 1;
      HasOrdersIff(orders[..n], id);
      if i :| 0 <= i < |orders| && orders[i].approvalId == id {
        if i < n {
          assert orders[..n][i].approvalId == id;
        }
      }
      if HasOrders(orders[..n], id) {
        var i :| 0 <= i < n && orders[..n][i].approvalId == id;
        assert orders[i].approvalId == id;
      }
    }
  }

  /** Rows that keep the staging history, the orders' payloads and the approvals' runs keep the correspondence. */
  lemma OneToOneStays(s: State, t: State)
    requires OneToOne(s) && ApprovalsGrow(s.approvals, t.approvals)
    requires forall id :: WasStaged(t.audit, id) <==> WasStaged(s.audit, id)
    requires forall id :: OrdersFor(t.orders, id) == OrdersFor(s.orders, id)
    requires forall id :: id in s.approvals && s.approvals[id].runId.Some? ==>
               TradesFor(t.trades, s.approvals[id].runId.value) == TradesFor(s.trades, s.approvals[id].runId.value)
    ensures OneToOne(t)
  {
  }

  lemma RestStays(s: State, t: State)
    requires Safe(s) && ApprovalsGrow(s.approvals, t.approvals)
    ensures t.orders == s.orders ==> OrdersBacked(t) && DistinctOrders(t.orders)
    ensures t.reports == s.reports ==> PdfsSigned(t)
  {
  }

  // ----- step by step

  lemma RequestSafe(s: State, requestId: string, subject: Subject, subjectId: string, runId: Option<string>,
                    household: string, now: int)
    requires Safe(s) && requestId !in s.approvals
    requires subject.OptimizationRun? <==> runId.Some?
    requires runId.Some? ==> subjectId == runId.value
    ensures Safe(Requested(s, requestId, subject, subjectId, runId, household, now))
  {
    hide OrdersFor, TradesFor, OrdersBacked, PdfsSigned, DistinctOrders, OneToOne;
    var t := Requested(s, requestId, subject, subjectId, runId, household, now);
    assert ApprovalsGrow(s.approvals, t.approvals);
    RestStays(s, t);
    forall id
      ensures WasStaged(t.audit, id) <==> WasStaged(s.audit, id)
    {
      StagedAppend(s.audit, Entry("system:approval", ApprovalRequested, requestId, household), id);
    }
    OneToOneStays(s, t);
  }

  lemma PersistSafe(s: State, runId: string, household: string, payloads: seq<Payload>, actor: string)
    requires Safe(s) && Fresh(s, runId)
    ensures Safe(Persisted(s, runId, household, payloads, actor))
  {
    hide OrdersFor, TradesFor, OrdersBacked, PdfsSigned, DistinctOrders, OneToOne;
    var t := Persisted(s, runId, household, payloads, actor);
    RestStays(s, t);
    forall id
      ensures WasStaged(t.audit, id) <==> WasStaged(s.audit, id)
    {
      StagedAppend(s.audit, Entry(actor, OptimizationComplete(|payloads|), runId, household), id);
    }
    forall id | id in s.approvals && s.approvals[id].runId.Some?
      ensures TradesFor(t.trades, s.approvals[id].runId.value) == TradesFor(s.trades, s.approvals[id].runId.value)
    {
      PersistedTrades(s, runId, household, payloads, actor, s.approvals[id].runId.value);
    }
    OneToOneStays(s, t);
  }

  lemma DecideSafe(s: State, requestId: string, status: ApprovalStatus, reviewer: string, now: int)
    requires Safe(s)
    ensures Safe(Decided(s, requestId, status, reviewer, now).state)
  {
    hide OrdersFor, TradesFor, OrdersBacked, PdfsSigned, DistinctOrders, OneToOne;
    var t := Decided(s, requestId, status, reviewer, now).state;
    if t != s {
      assert ApprovalsGrow(s.approvals, t.approvals);
      RestStays(s, t);
      forall id
        ensures WasStaged(t.audit, id) <==> WasStaged(s.audit, id)
      {
        StagedAppend(s.audit, Entry(reviewer, ApprovalDecided(status), requestId, s.approvals[requestId].household),
                     id);
      }
      OneToOneStays(s, t);
    }
  }

  /** Staging an approval with no orders yet. */
  lemma StageSafe(s: State, approvalId: string, actor: string, ids: seq<string>, now: int)
    requires Safe(s) && FreshOrderIds(s, ids)
    requires approvalId in s.approvals && s.approvals[approvalId].runId.Some? ==>
               |TradesFor(s.trades, s.approvals[approvalId].runId.value)| <= |ids|
    ensures Safe(StagedFrom(s, approvalId, actor, ids, now).state)
  {
    hide OrdersFor, TradesFor;
    var t := StagedFrom(s, approvalId, actor, ids, now).state;
    if t != s {
      var a := s.approvals[approvalId];
      var payloads := TradesFor(s.trades, a.runId.value);
      var more := NewOrders(approvalId, a.runId.value, a.household, payloads, ids, now);
      assert t.orders == s.orders + more;
      HasOrdersIff(s.orders, approvalId);
      forall id
        ensures if WasStaged(t.audit, id) then
            && id in t.approvals && t.approvals[id].runId.Some?
            && OrdersFor(t.orders, id) == TradesFor(t.trades, t.approvals[id].runId.value)
          else OrdersFor(t.orders, id) == []
      {
        StagedAppend(s.audit, Entry(actor, OrdersStaged(|payloads|), approvalId, a.household), id);
        OrdersAppend(s.orders, more, id);
        OrdersOfNew(approvalId, a.runId.value, a.household, payloads, ids, now, id);
      }
    }
  }

  lemma MoveSafe(s: State, orderId: string, status: OrderStatus, actor: string, now: int)
    requires Safe(s)
    ensures Safe(Moved(s, orderId, status, actor, now).state)
  {
    hide OrdersFor, TradesFor, Moved, Allowed, IndexOf, OneToOne;
    var t := Moved(s, orderId, status, actor, now).state;
    var i := MoveShape(s, orderId, status, actor, now);
    if t != s {
      forall id
        ensures OrdersFor(t.orders, id) == OrdersFor(s.orders, id)
        ensures WasStaged(t.audit, id) <==> WasStaged(s.audit, id)
      {
        OrdersMove(s.orders, i, status, now, id);
        StagedAppend(s.audit, Entry(actor, OrderMoved(status), orderId, s.orders[i].household), id);
      }
      OneToOneStays(s, t);
    }
  }

  lemma PdfSafe(s: State, key: ReportKey, gate: Option<ApprovalStatus>, rendering: Rendering)
    requires Safe(s) && IsLatestStatus(s.approvals, key.snapshot, gate)
    ensures Safe(WithPdf(s, key, DeliveryOf(s, gate, rendering), rendering))
  {
  }

  lemma AuditSafe(s: State, entry: Entry)
    requires Safe(s) && !entry.action.OrdersStaged?
    ensures Safe(Audited(s, entry))
  {
    hide OrdersFor, TradesFor, OrdersBacked, PdfsSigned, DistinctOrders, OneToOne;
    var t := Audited(s, entry);
    RestStays(s, t);
    forall id
      ensures WasStaged(t.audit, id) <==> WasStaged(s.audit, id)
    {
      StagedAppend(s.audit, entry, id);
    }
    OneToOneStays(s, t);
  }

  lemma BreaksSafe(s: State, breaks: map<string, bool>)
    requires Safe(s)
    ensures Safe(s.(breaks := breaks))
  {
  }

  lemma ApproveReportSafe(s: State, c: Command)
    requires Safe(s) && Admissible(s, c) && c.ApproveReport?
    ensures Safe(Step(s, c).state)
  {
    hide Safe, WithPdf, Audited, IsLatestStatus, Requested, Decided, Fresh;
    if c.key in s.reports {
      assert c.requestId !in s.approvals by { FreshRequest(s, c.requestId); }
      var asked := Requested(s, c.requestId, ReportSnapshot, c.key.snapshot, None, c.key.household, c.now);
      RequestSafe(s, c.requestId, ReportSnapshot, c.key.snapshot, None, c.key.household, c.now);
      DecideSafe(asked, c.requestId, Approved, c.reviewer, c.now);
      var signed := SignedOff(s, c.key, c.reviewer, c.requestId, c.now);
      var delivery := DeliveryOf(signed, c.gate, c.rendering);
      PdfSafe(signed, c.key, c.gate, c.rendering);
      AuditSafe(WithPdf(signed, c.key, delivery, c.rendering),
                Entry(c.reviewer, ReportSignedOff(delivery), c.key.snapshot, c.key.household));
    }
  }

  lemma FreshRequest(s: State, id: string)
    requires Fresh(s, id)
    ensures id !in s.approvals && id !in s.runs
  {
  }

  lemma PersistRunSafe(s: State, c: Command)
    requires Safe(s) && Admissible(s, c) && c.PersistRun?
    ensures Safe(Step(s, c).state)
  {
    hide Safe;
    var run := Persisted(s, c.runId, c.household, c.payloads, c.actor);
    PersistSafe(s, c.runId, c.household, c.payloads, c.actor);
    if c.queued.Some? {
      RequestSafe(run, c.queued.value, OptimizationRun, c.runId, Some(c.runId), c.household, c.now);
    }
  }

  lemma BreakStepSafe(s: State, c: Command)
    requires Safe(s) && Admissible(s, c) && (c.OpenBreak? || c.ResolveBreak?)
    ensures Safe(Step(s, c).state)
  {
    hide Safe;
    match c
    case OpenBreak(breakId, actor, household) =>
      BreaksSafe(s, s.breaks[breakId := false]);
      AuditSafe(s.(breaks := s.breaks[breakId := false]), Entry(actor, BreakOpened, breakId, household));
    case ResolveBreak(breakId) =>
      BreaksSafe(s, s.breaks[breakId := true]);
  }

  /** Every admissible step keeps the invariants. */
  lemma StepSafe(s: State, c: Command)
    requires Safe(s) && Admissible(s, c)
    ensures Safe(Step(s, c).state)
  {
    hide Safe, Requested, Decided, StagedFrom, Moved, WithPdf, ReportApproved, TradesFor, Audited, IsLatestStatus,
         Fresh, FreshOrderIds;
    match c
    case PersistRun(runId, household, payloads, queued, actor, now) => PersistRunSafe(s, c);
    case RequestForRun(requestId, runId, household, now) =>
      FreshRequest(s, requestId);
      RequestSafe(s, requestId, OptimizationRun, runId, Some(runId), household, now);
    case RequestForReport(requestId, snapshot, household, now) =>
      FreshRequest(s, requestId);
      RequestSafe(s, requestId, ReportSnapshot, snapshot, None, household, now);
    case Decide(requestId, decision, reviewer, now) => DecideSafe(s, requestId, decision, reviewer, now);
    case StageOrders(approvalId, actor, ids, now) => StageSafe(s, approvalId, actor, ids, now);
    case MoveOrder(orderId, status, actor, now) => MoveSafe(s, orderId, status, actor, now);
    case OpenBreak(breakId, actor, household) => BreakStepSafe(s, c);
    case ResolveBreak(breakId) => BreakStepSafe(s, c);
    case BuildReport(key, actor, gate, rendering) =>
      var delivery := DeliveryOf(s, gate, rendering);
      PdfSafe(s, key, gate, rendering);
      AuditSafe(WithPdf(s, key, delivery, rendering), Entry(actor, ReportBuilt(delivery), key.snapshot, key.household));
    case ApproveReport(key, reviewer, requestId, now, gate, rendering) => ApproveReportSafe(s, c);
  }

  lemma EmptySafe()
    ensures Safe(Empty()) && RowsSafe(Empty())
  {
  }

  // ----- the rows alone

  /** The same rows, with no PDF rendered. */
  function Unrendered(s: State): State {
    s.(reports := map k | k in s.reports :: false)
  }

  lemma UnrenderedPdf(s: State, u: State, key: ReportKey, delivery: Delivery, rendering: Rendering)
    requires u == Unrendered(s)
    ensures WithPdf(u, key, delivery, rendering)
         == WithPdf(s, key, delivery, rendering).(reports := WithPdf(u, key, delivery, rendering).reports)
  {
  }

  lemma UnrenderedAdmits(s: State, c: Command)
    requires Admissible(s, c)
    ensures Admissible(Unrendered(s), c)
  {
    hide TradesFor, IsLatestStatus;
    assert Unrendered(s).reports.Keys == s.reports.Keys;
    if c.ApproveReport? {
      assert SignedOff(Unrendered(s), c.key, c.reviewer, c.requestId, c.now).approvals
          == SignedOff(s, c.key, c.reviewer, c.requestId, c.now).approvals;
    }
  }

  lemma UnrenderedApprove(s: State, c: Command)
    requires Admissible(s, c) && Admissible(Unrendered(s), c) && c.ApproveReport?
    ensures var t, u := Step(s, c).state, Step(Unrendered(s), c).state; u == t.(reports := u.reports)
  {
    hide IsLatestStatus, AnyOpen, WithPdf, Fresh;
    assert Unrendered(s).reports.Keys == s.reports.Keys;
    var signed := SignedOff(s, c.key, c.reviewer, c.requestId, c.now);
    assert SignedOff(Unrendered(s), c.key, c.reviewer, c.requestId, c.now) == Unrendered(signed);
    UnrenderedPdf(signed, Unrendered(signed), c.key, DeliveryOf(signed, c.gate, c.rendering), c.rendering);
  }

  lemma UnrenderedStage(s: State, approvalId: string, actor: string, ids: seq<string>, now: int)
    requires approvalId in s.approvals && s.approvals[approvalId].runId.Some? ==>
               |TradesFor(s.trades, s.approvals[approvalId].runId.value)| <= |ids|
    ensures StagedFrom(Unrendered(s), approvalId, actor, ids, now).state
         == StagedFrom(s, approvalId, actor, ids, now).state.(reports := Unrendered(s).reports)
  {
    hide TradesFor, HasOrders, NewOrders;
  }

  lemma MoveIgnoresReports(s: State, r: map<ReportKey, bool>, orderId: string, status: OrderStatus, actor: string,
                           now: int)
    ensures Moved(s.(reports := r), orderId, status, actor, now).state
         == Moved(s, orderId, status, actor, now).state.(reports := r)
  {
    hide IndexOf, Allowed;
  }

  lemma JustReports(s: State)
    ensures Unrendered(s) == s.(reports := Unrendered(s).reports)
  {
  }

  lemma UnrenderedOrders(s: State, c: Command)
    requires Admissible(s, c) && Admissible(Unrendered(s), c) && (c.StageOrders? || c.MoveOrder?)
    ensures var t, u := Step(s, c).state, Step(Unrendered(s), c).state; u == t.(reports := u.reports)
  {
    hide TradesFor, FreshOrderIds, StagedFrom, Moved, Unrendered;
    if c.StageOrders? {
      UnrenderedStage(s, c.approvalId, c.actor, c.ids, c.now);
    } else {
      MoveIgnoresReports(s, Unrendered(s).reports, c.orderId, c.orderStatus, c.actor, c.now);
      JustReports(s);
    }
  }

  lemma UnrenderedBuild(s: State, c: Command)
    requires Admissible(s, c) && Admissible(Unrendered(s), c) && c.BuildReport?
    ensures var t, u := Step(s, c).state, Step(Unrendered(s), c).state; u == t.(reports := u.reports)
  {
    hide IsLatestStatus, AnyOpen, WithPdf, Fresh;
    UnrenderedPdf(s, Unrendered(s), c.key, DeliveryOf(s, c.gate, c.rendering), c.rendering);
  }

  lemma RequestIgnoresReports(s: State, r: map<ReportKey, bool>, requestId: string, subject: Subject,
                              subjectId: string, runId: Option<string>, household: string, now: int)
    ensures Requested(s.(reports := r), requestId, subject, subjectId, runId, household, now)
         == Requested(s, requestId, subject, subjectId, runId, household, now).(reports := r)
  {
  }

  lemma PersistIgnoresReports(s: State, r: map<ReportKey, bool>, c: Command)
    requires Admissible(s, c) && Admissible(s.(reports := r), c) && c.PersistRun?
    ensures Step(s.(reports := r), c).state == Step(s, c).state.(reports := r)
  {
    hide Fresh, RowsOf, Requested;
    if c.queued.Some? {
      RequestIgnoresReports(Persisted(s, c.runId, c.household, c.payloads, c.actor), r, c.queued.value, OptimizationRun,
                            c.runId, Some(c.runId), c.household, c.now);
    }
  }

  lemma DecideIgnoresReports(s: State, r: map<ReportKey, bool>, requestId: string, status: ApprovalStatus,
                             reviewer: string, now: int)
    ensures Decided(s.(reports := r), requestId, status, reviewer, now).state
         == Decided(s, requestId, status, reviewer, now).state.(reports := r)
  {
  }

  lemma UnrenderedRest(s: State, c: Command)
    requires Admissible(s, c) && Admissible(Unrendered(s), c)
    requires !c.StageOrders? && !c.MoveOrder? && !c.ApproveReport? && !c.BuildReport?
    ensures var t, u := Step(s, c).state, Step(Unrendered(s), c).state; u == t.(reports := u.reports)
  {
    hide Fresh, Unrendered, Requested, Decided, Persisted;
    JustReports(s);
    var r := Unrendered(s).reports;
    match c
    case PersistRun(_, _, _, _, _, _) => PersistIgnoresReports(s, r, c);
    case RequestForRun(requestId, runId, household, now) =>
      RequestIgnoresReports(s, r, requestId, OptimizationRun, runId, Some(runId), household, now);
    case RequestForReport(requestId, snapshot, household, now) =>
      RequestIgnoresReports(s, r, requestId, ReportSnapshot, snapshot, None, household, now);
    case Decide(requestId, decision, reviewer, now) => DecideIgnoresReports(s, r, requestId, decision, reviewer, now);
    case OpenBreak(_, _, _) =>
    case ResolveBreak(_) =>
  }

  /** A step does to the rows what it would do if no PDF had been rendered. */
  lemma StepUnrendered(s: State, c: Command)
    requires Admissible(s, c)
    ensures Admissible(Unrendered(s), c)
    ensures var t, u := Step(s, c).state, Step(Unrendered(s), c).state; u == t.(reports := u.reports)
  {
    hide Admissible, Step, Unrendered;
    UnrenderedAdmits(s, c);
    if c.StageOrders? || c.MoveOrder? {
      UnrenderedOrders(s, c);
    } else if c.ApproveReport? {
      UnrenderedApprove(s, c);
    } else if c.BuildReport? {
      UnrenderedBuild(s, c);
    } else {
      UnrenderedRest(s, c);
    }
  }

  lemma SameRowsSafe(s: State, t: State)
    requires RowsSafe(s) && t == s.(reports := t.reports, events := t.events)
    ensures RowsSafe(t)
  {
  }

  /** The invariants of the rows do not depend on what has been rendered. */
  lemma StepRowsSafe(s: State, c: Command)
    requires RowsSafe(s) && Admissible(s, c)
    ensures RowsSafe(Step(s, c).state)
  {
    hide RowsSafe, Step, Admissible;
    var u := Unrendered(s);
    SameRowsSafe(s, u);
    StepUnrendered(s, c);
    StepSafe(u, c);
    SameRowsSafe(Step(u, c).state, Step(s, c).state);
  }

  lemma {:induction false} AfterRowsSafe(s: State, calls: seq<Command>)
    requires RowsSafe(s) && AllAdmissible(s, calls)
    ensures RowsSafe(After(s, calls))
    decreases |calls|
  {
    hide RowsSafe, Step, Admissible;
    if |calls| > 0 {
      StepRowsSafe(s, calls[0]);
      AfterRowsSafe(Step(s, calls[0]).state, calls[1..]);
    }
  }

  lemma EndRowsSafe(s: State, work: Work)
    requires RowsSafe(s) && Admits(s, work)
    ensures RowsSafe(End(s, work))
  {
    hide RowsSafe, After, AllAdmissible;
    match work
    case Work(calls, commits) =>
      AfterRowsSafe(s, calls);
      SameRowsSafe(s, RolledBack(s, After(s, calls)));
    case PdfCommand(key, rendering) => SameRowsSafe(s, Rendered(s, key, rendering));
  }

  /** In every state of every run, whichever sessions were rolled back, the rows are safe. */
  lemma {:induction false} RunRowsSafe(states: seq<State>, works: seq<Work>, i: nat)
    requires IsRun(states, works) && i < |states|
    ensures RowsSafe(states[i])
  {
    hide RowsSafe, End, Admits;
    if i == 0 {
      EmptySafe();
    } else {
      RunRowsSafe(states, works, i - 1);
      EndRowsSafe(states[i - 1], works[i - 1]);
    }
  }
}
