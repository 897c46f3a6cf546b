/** The audit log is a faithful history: replaying it yields every approval's and every order's current status. */
module AuditReplay {
  import opened Wrappers
  import opened Workflow
  import opened WorkflowSafety
  import opened WorkflowInvariants

  /** The status an entry records for an approval request, if it is about that request. */
  function DecisionIn(e: Entry, id: string): Option<ApprovalStatus> {
    if e.resource != id then None
    else if e.action.ApprovalRequested? then Some(Pending)
    else if e.action.ApprovalDecided? then Some(e.action.approvalStatus)
    else None
  }

  /** The status changes an approval request went through, oldest first. */
  function Decisions(audit: seq<Entry>, id: string): seq<ApprovalStatus> {
    if |audit| == 0 then []
    else
      var d := DecisionIn(audit[|audit| - 1], id);
      Decisions(audit[..|audit| - 1], id) + if d.Some? then [d.value] else []
  }

  predicate MoveIn(e: Entry, id: string) {
    e.action.OrderMoved? && e.resource == id
  }

  /** The status changes of an order after staging, oldest first. */
  function Moves(audit: seq<Entry>, id: string): seq<OrderStatus> {
    if |audit| == 0 then []
    else
      var e := audit[|audit| - 1];
      Moves(audit[..|audit| - 1], id) + if MoveIn(e, id) then [e.action.orderStatus] else []
  }

  function Fills(events: seq<OrderFilled>, id: string): nat {
    if |events| == 0 then 0
    else Fills(events[..|events| - 1], id) + if events[|events| - 1].orderId == id then 1 else 0
  }

  /** Replay for an approval: the last recorded status. */
  function ReplayApproval(audit: seq<Entry>, id: string): Option<ApprovalStatus> {
    var d := Decisions(audit, id);
    if |d| == 0 then None else Some(d[|d| - 1])
  }

  /** Replay for an order: the last recorded status, or the status it was staged with. */
  function ReplayOrder(audit: seq<Entry>, id: string): OrderStatus {
    var m := Moves(audit, id);
    if |m| == 0 then Staged else m[|m| - 1]
  }

  /** A request is pending until one decision, and only the last entry may be a decision. */
  predicate IsDecisionPath(d: seq<ApprovalStatus>, status: ApprovalStatus) {
    |d| > 0 && d[0] == Pending && d[|d| - 1] == status && forall i :: 0 <= i < |d| - 1 ==> d[i] == Pending
  }

  /** The only histories an order can have. */
  predicate IsOrderPath(m: seq<OrderStatus>, status: OrderStatus) {
    match status
    case Staged => m == []
    case Submitted => m == [Submitted]
    case Filled => m == [Submitted, Filled]
    case Cancelled => m == [Cancelled] || m == [Submitted, Cancelled]
  }

  ghost predicate ApprovalsRecorded(s: State) {
    forall id ::
      if id in s.approvals then IsDecisionPath(Decisions(s.audit, id), s.approvals[id].status)
      else Decisions(s.audit, id) == []
  }

  ghost predicate OrderRecorded(s: State, o: Order) {
    IsOrderPath(Moves(s.audit, o.orderId), o.status)
  }

  ghost predicate OrdersRecorded(s: State) {
    && (forall i :: 0 <= i < |s.orders| ==> OrderRecorded(s, s.orders[i]))
    && (forall id :: IndexOf(s.orders, id) == |s.orders| ==> Moves(s.audit, id) == [])
  }

  ghost predicate Recorded(s: State) {
    ApprovalsRecorded(s) && OrdersRecorded(s)
  }

  // ----- one more entry

  lemma AppendEntry(audit: seq<Entry>, e: Entry, id: string)
    ensures Decisions(audit + [e], id)
            == Decisions(audit, id) + (if DecisionIn(e, id).Some? then [DecisionIn(e, id).value] else [])
    ensures Moves(audit + [e], id) == Moves(audit, id) + if MoveIn(e, id) then [e.action.orderStatus] else []
  {
  }

  lemma AppendEvent(events: seq<OrderFilled>, e: OrderFilled, id: string)
    ensures Fills(events + [e], id) == Fills(events, id) + if e.orderId == id then 1 else 0
  {
  }

  predicate Silent(e: Entry) {
    !e.action.ApprovalRequested? && !e.action.ApprovalDecided? && !e.action.OrderMoved?
  }

  /** An entry about neither approvals nor moves, and rows that keep both tables, keep the record. */
  lemma SilentRecorded(s: State, t: State, e: Entry)
    requires Recorded(s) && Silent(e)
    requires t.approvals == s.approvals && t.orders == s.orders
    requires t.audit == s.audit || t.audit == s.audit + [e]
    ensures Recorded(t)
  {
  }

  /** An entry about approvals says nothing about orders. */
  lemma ApprovalEntryKeepsOrders(s: State, t: State, e: Entry)
    requires OrdersRecorded(s) && !e.action.OrderMoved?
    requires t.orders == s.orders && t.audit == s.audit + [e]
    ensures OrdersRecorded(t)
  {
  }

  lemma RequestRecorded(s: State, requestId: string, subject: Subject, subjectId: string, runId: Option<string>,
                        household: string, now: int)
    requires Recorded(s) && requestId !in s.approvals
    ensures Recorded(Requested(s, requestId, subject, subjectId, runId, household, now))
  {
    hide Decisions, OrdersRecorded;
    var t := Requested(s, requestId, subject, subjectId, runId, household, now);
    var e := Entry("system:approval", ApprovalRequested, requestId, household);
    ApprovalEntryKeepsOrders(s, t, e);
    forall id
      ensures if id in t.approvals then IsDecisionPath(Decisions(t.audit, id), t.approvals[id].status)
              else Decisions(t.audit, id) == []
    {
      AppendEntry(s.audit, e, id);
    }
  }

  lemma DecideRecorded(s: State, requestId: string, status: ApprovalStatus, reviewer: string, now: int)
    requires Recorded(s)
    ensures Recorded(Decided(s, requestId, status, reviewer, now).state)
  {
    hide Decisions, OrdersRecorded;
    var t := Decided(s, requestId, status, reviewer, now).state;
    if t != s {
      var e := Entry(reviewer, ApprovalDecided(status), requestId, s.approvals[requestId].household);
      ApprovalEntryKeepsOrders(s, t, e);
      forall id
        ensures if id in t.approvals then IsDecisionPath(Decisions(t.audit, id), t.approvals[id].status)
                else Decisions(t.audit, id) == []
      {
        AppendEntry(s.audit, e, id);
      }
    }
  }

  lemma StageRecorded(s: State, approvalId: string, actor: string, ids: seq<string>, now: int)
    requires Recorded(s) && FreshOrderIds(s, ids)
    requires approvalId in s.approvals && s.approvals[approvalId].runId.Some? ==>
               |TradesFor(s.trades, s.approvals[approvalId].runId.value)| <= |ids|
    ensures Recorded(StagedFrom(s, approvalId, actor, ids, now).state)
  {
    hide Decisions, Moves, TradesFor, IsDecisionPath;
    var t := StagedFrom(s, approvalId, actor, ids, now).state;
    if t != s {
      var a := s.approvals[approvalId];
      var payloads := TradesFor(s.trades, a.runId.value);
      var more := NewOrders(approvalId, a.runId.value, a.household, payloads, ids, now);
      SilentRecorded(s, t.(orders := s.orders), Entry(actor, OrdersStaged(|payloads|), approvalId, a.household));
      forall i | 0 <= i < |t.orders|
        ensures OrderRecorded(t, t.orders[i])
      {
        if i < |s.orders| {
          assert OrderRecorded(t.(orders := s.orders), s.orders[i]);
        } else {
          assert t.orders[i] == more[i - |s.orders|];
        }
      }
      forall id | IndexOf(t.orders, id) == |t.orders|
        ensures Moves(t.audit, id) == []
      {
        assert forall k :: 0 <= k < |s.orders| ==> s.orders[k] == t.orders[k];
      }
    }
  }

  lemma MovedRow(s: State, t: State, o: Order, status: OrderStatus, now: int)
    requires OrderRecorded(s, o) && status in Allowed(o.status) && status != o.status
    requires Moves(t.audit, o.orderId) == Moves(s.audit, o.orderId) + [status]
    ensures OrderRecorded(t, o.(status := status, updatedAt := now))
  {
  }

  lemma OtherRow(s: State, t: State, o: Order)
    requires OrderRecorded(s, o)
    requires Moves(t.audit, o.orderId) == Moves(s.audit, o.orderId)
    ensures OrderRecorded(t, o)
  {
    hide Moves;
  }

  /** What an accepted move adds to each id's record. */
  lemma MoveAdds(audit: seq<Entry>, e: Entry, id: string)
    requires e.action.OrderMoved?
    ensures Decisions(audit + [e], id) == Decisions(audit, id)
    ensures Moves(audit + [e], id)
         == if id == e.resource then Moves(audit, id) + [e.action.orderStatus] else Moves(audit, id)
  {
    hide Decisions, Moves;
    AppendEntry(audit, e, id);
    assert Moves(audit, id) + [] == Moves(audit, id) && Decisions(audit, id) + [] == Decisions(audit, id);
  }

  lemma MoveRecorded(s: State, orderId: string, status: OrderStatus, actor: string, now: int)
    requires Recorded(s) && DistinctOrders(s.orders)
    ensures Recorded(Moved(s, orderId, status, actor, now).state)
  {
    hide Decisions, Moves, Moved, IsDecisionPath, IsOrderPath, Allowed, OrderRecorded;
    var t := Moved(s, orderId, status, actor, now).state;
    var i := MoveShape(s, orderId, status, actor, now);
    if t != s {
      var e := Entry(actor, OrderMoved(status), orderId, s.orders[i].household);
      forall id
        ensures Decisions(t.audit, id) == Decisions(s.audit, id)
        ensures Moves(t.audit, id) == if id == orderId then Moves(s.audit, id) + [status] else Moves(s.audit, id)
      {
        MoveAdds(s.audit, e, id);
      }
      forall k | 0 <= k < |t.orders|
        ensures OrderRecorded(t, t.orders[k])
      {
        if k == i {
          MovedRow(s, t, s.orders[i], status, now);
        } else {
          OtherRow(s, t, s.orders[k]);
        }
      }
      NoNewIds(s.orders, t.orders);
    }
  }

  lemma NoNewIds(orders: seq<Order>, moved: seq<Order>)
    requires |moved| == |orders| && forall k :: 0 <= k < |orders| ==> moved[k].orderId == orders[k].orderId
    ensures forall id :: IndexOf(moved, id) == |moved| ==> IndexOf(orders, id) == |orders|
    ensures forall id, k :: IndexOf(moved, id) == |moved| && 0 <= k < |orders| ==> orders[k].orderId != id
  {
  }

  lemma ApproveReportRecorded(s: State, c: Command)
    requires Recorded(s) && Admissible(s, c) && c.ApproveReport?
    ensures Recorded(Step(s, c).state)
  {
    hide Recorded, IsLatestStatus, Requested, Decided, Fresh;
    if c.key in s.reports {
      assert c.requestId !in s.approvals by { FreshRequest(s, c.requestId); }
      var asked := Requested(s, c.requestId, ReportSnapshot, c.key.snapshot, None, c.key.household, c.now);
      RequestRecorded(s, c.requestId, ReportSnapshot, c.key.snapshot, None, c.key.household, c.now);
      DecideRecorded(asked, c.requestId, Approved, c.reviewer, c.now);
      var signed := SignedOff(s, c.key, c.reviewer, c.requestId, c.now);
      var delivery := DeliveryOf(signed, c.gate, c.rendering);
      SilentRecorded(signed, Step(s, c).state,
                     Entry(c.reviewer, ReportSignedOff(delivery), c.key.snapshot, c.key.household));
    }
  }

  lemma PersistRunRecorded(s: State, c: Command)
    requires Recorded(s) && Admissible(s, c) && c.PersistRun?
    ensures Recorded(Step(s, c).state)
  {
    hide Recorded;
    var run := Persisted(s, c.runId, c.household, c.payloads, c.actor);
    SilentRecorded(s, run, Entry(c.actor, OptimizationComplete(|c.payloads|), c.runId, c.household));
    if c.queued.Some? {
      RequestRecorded(run, c.queued.value, OptimizationRun, c.runId, Some(c.runId), c.household, c.now);
    }
  }

  lemma OtherRecorded(s: State, c: Command)
    requires Recorded(s) && Admissible(s, c) && (c.OpenBreak? || c.ResolveBreak? || c.BuildReport?)
    ensures Recorded(Step(s, c).state)
  {
    hide Recorded, IsLatestStatus, Fresh;
    match c
    case OpenBreak(breakId, actor, household) =>
      SilentRecorded(s, Step(s, c).state, Entry(actor, BreakOpened, breakId, household));
    case ResolveBreak(breakId) => SilentRecorded(s, Step(s, c).state, Entry("", BreakOpened, "", ""));
    case BuildReport(key, actor, gate, rendering) =>
      SilentRecorded(s, Step(s, c).state,
                     Entry(actor, ReportBuilt(DeliveryOf(s, gate, rendering)), key.snapshot, key.household));
  }

  lemma StepRecorded(s: State, c: Command)
    requires Recorded(s) && RowsSafe(s) && Admissible(s, c)
    ensures Recorded(Step(s, c).state)
  {
    hide Recorded, Requested, Decided, StagedFrom, Moved, WithPdf, ReportApproved, Built, BreakAdded, TradesFor,
         Audited,
         IsLatestStatus, Fresh, FreshOrderIds, Typed, OrdersBacked, OneToOne, PdfsSigned, DistinctOrders;
    match c
    case PersistRun(runId, household, payloads, queued, actor, now) => PersistRunRecorded(s, c);
    case RequestForRun(requestId, runId, household, now) =>
      FreshRequest(s, requestId);
      RequestRecorded(s, requestId, OptimizationRun, runId, Some(runId), household, now);
    case RequestForReport(requestId, snapshot, household, now) =>
      FreshRequest(s, requestId);
      RequestRecorded(s, requestId, ReportSnapshot, snapshot, None, household, now);
    case Decide(requestId, decision, reviewer, now) => DecideRecorded(s, requestId, decision, reviewer, now);
    case StageOrders(approvalId, actor, ids, now) => StageRecorded(s, approvalId, actor, ids, now);
    case MoveOrder(orderId, status, actor, now) => MoveRecorded(s, orderId, status, actor, now);
    case OpenBreak(breakId, actor, household) => OtherRecorded(s, c);
    case ResolveBreak(breakId) => OtherRecorded(s, c);
    case BuildReport(key, actor, gate, rendering) => OtherRecorded(s, c);
    case ApproveReport(key, reviewer, requestId, now, gate, rendering) => ApproveReportRecorded(s, c);
  }

  lemma {:induction false} AfterRecorded(s: State, calls: seq<Command>)
    requires Recorded(s) && RowsSafe(s) && AllAdmissible(s, calls)
    ensures Recorded(After(s, calls))
    decreases |calls|
  {
    hide Recorded, RowsSafe, Step, Admissible;
    if |calls| > 0 {
      StepRecorded(s, calls[0]);
      StepRowsSafe(s, calls[0]);
      AfterRecorded(Step(s, calls[0]).state, calls[1..]);
    }
  }

  lemma SameRowsRecorded(s: State, t: State)
    requires Recorded(s) && t == s.(reports := t.reports, events := t.events)
    ensures Recorded(t)
  {
  }

  lemma EndRecorded(s: State, work: Work)
    requires Recorded(s) && RowsSafe(s) && Admits(s, work)
    ensures Recorded(End(s, work))
  {
    hide Recorded, RowsSafe, After, AllAdmissible;
    match work
    case Work(calls, commits) =>
      AfterRecorded(s, calls);
      SameRowsRecorded(s, RolledBack(s, After(s, calls)));
    case PdfCommand(key, rendering) => SameRowsRecorded(s, Rendered(s, key, rendering));
  }

  lemma {:induction false} RunRecorded(states: seq<State>, works: seq<Work>, i: nat)
    requires IsRun(states, works) && i < |states|
    ensures Recorded(states[i])
  {
    hide Recorded, RowsSafe, End, Admits;
    if i == 0 {
      EmptyRecorded();
    } else {
      RunRecorded(states, works, i - 1);
      RunRowsSafe(states, works, i - 1);
      EndRecorded(states[i - 1], works[i - 1]);
    }
  }

  lemma EmptyRecorded()
    ensures Recorded(Empty())
  {
  }

  // ----- what the record means

  /** Over any run, replaying the audit log yields the current status of every approval and of every order. */
  lemma AuditIsFaithful(states: seq<State>, works: seq<Work>, i: nat)
    requires IsRun(states, works) && i < |states|
    ensures forall id :: ReplayApproval(states[i].audit, id)
              == if id in states[i].approvals then Some(states[i].approvals[id].status) else None
    ensures forall k :: 0 <= k < |states[i].orders| ==>
            ReplayOrder(states[i].audit, states[i].orders[k].orderId) == states[i].orders[k].status
  {
    hide Decisions, Moves, IsRun;
    RunRecorded(states, works, i);
    forall k | 0 <= k < |states[i].orders|
      ensures ReplayOrder(states[i].audit, states[i].orders[k].orderId) == states[i].orders[k].status
    {
      assert OrderRecorded(states[i], states[i].orders[k]);
    }
  }

  // ----- fill events

  /** Whether the order with an id is filled now. */
  function FilledNow(orders: seq<Order>, id: string): nat {
    var i := IndexOf(orders, id);
    if i < |orders| && orders[i].status.Filled? then 1 else 0
  }

  /** Whether a call is an accepted fill of the order. */
  ghost function FillsBy(s: State, c: Command, id: string): nat
    requires Admissible(s, c)
  {
    if c.MoveOrder? && c.orderId == id && c.orderStatus.Filled? && Step(s, c).error.None? then 1 else 0
  }

  lemma {:induction false} IndexKept(orders: seq<Order>, more: seq<Order>, id: string)
    requires |orders| <= |more| && forall k :: 0 <= k < |orders| ==> more[k].orderId == orders[k].orderId
    ensures IndexOf(orders, id) < |orders| ==> IndexOf(more, id) == IndexOf(orders, id)
    ensures IndexOf(orders, id) == |orders| ==> |orders| <= IndexOf(more, id)
    decreases |more|
  {
    if |orders| < |more| {
      IndexKept(orders, more[..|more| - 1], id);
    } else if |orders| > 0 {
      var n := |orders| - 1;
      IndexKept(orders[..n], more[..n], id);
    }
  }

  lemma StageFills(s: State, approvalId: string, actor: string, ids: seq<string>, now: int, id: string)
    requires approvalId in s.approvals && s.approvals[approvalId].runId.Some? ==>
               |TradesFor(s.trades, s.approvals[approvalId].runId.value)| <= |ids|
    ensures var t := StagedFrom(s, approvalId, actor, ids, now).state;
            FilledNow(t.orders, id) == FilledNow(s.orders, id) && t.events == s.events
  {
    hide TradesFor, IndexOf;
    var t := StagedFrom(s, approvalId, actor, ids, now).state;
    if t != s {
      IndexKept(s.orders, t.orders, id);
    }
  }

  /** A call that moves an order either does nothing or is accepted. */
  lemma FillIffAccepted(s: State, c: Command, id: string)
    requires Admissible(s, c) && c.MoveOrder?
    ensures var t := Step(s, c).state;
            FillsBy(s, c, id) == if t.events != s.events && c.orderId == id then 1 else 0
  {
    hide IndexOf;
  }

  lemma OneRowFills(orders: seq<Order>, i: nat, status: OrderStatus, now: int, id: string)
    requires i < |orders| && i == IndexOf(orders, orders[i].orderId) && !orders[i].status.Filled?
    ensures FilledNow(orders[i := orders[i].(status := status, updatedAt := now)], id)
         == FilledNow(orders, id) + if status.Filled? && id == orders[i].orderId then 1 else 0
  {
    hide IndexOf;
    IndexKept(orders, orders[i := orders[i].(status := status, updatedAt := now)], id);
  }

  lemma MoveFills(s: State, c: Command, id: string)
    requires Admissible(s, c) && c.MoveOrder?
    ensures var t := Step(s, c).state;
            && FilledNow(t.orders, id) == FilledNow(s.orders, id) + FillsBy(s, c, id)
            && Fills(t.events, id) == Fills(s.events, id) + FillsBy(s, c, id)
  {
    hide IndexOf, Fills, Moved, FillsBy, FilledNow;
    var t := Step(s, c).state;
    FillIffAccepted(s, c, id);
    var i := MoveShape(s, c.orderId, c.orderStatus, c.actor, c.now);
    assert s.events + [] == s.events;
    if t != s {
      OneRowFills(s.orders, i, c.orderStatus, c.now, id);
      AppendEvent(s.events, OrderFilled(s.orders[i].household, c.orderId, s.orders[i].approvalId), id);
    }
  }

  /** A call raises one event per fill it makes, and no other. */
  lemma StepFills(s: State, c: Command, id: string)
    requires Admissible(s, c)
    ensures var t := Step(s, c).state;
            && FilledNow(t.orders, id) == FilledNow(s.orders, id) + FillsBy(s, c, id)
            && Fills(t.events, id) == Fills(s.events, id) + FillsBy(s, c, id)
  {
    hide TradesFor, FilledNow, Fills, StagedFrom, Moved, FreshOrderIds, Fresh, IsLatestStatus, AnyOpen;
    if c.StageOrders? {
      StageFills(s, c.approvalId, c.actor, c.ids, c.now, id);
    } else if c.MoveOrder? {
      MoveFills(s, c, id);
    }
  }

  /** The accepted fills of an order among the calls of a session. */
  ghost function AcceptedFills(s: State, calls: seq<Command>, id: string): nat
    requires AllAdmissible(s, calls)
    decreases |calls|
  {
    if |calls| == 0 then 0
    else FillsBy(s, calls[0], id) + AcceptedFills(Step(s, calls[0]).state, calls[1..], id)
  }

  lemma {:induction false} AfterFills(s: State, calls: seq<Command>, id: string)
    requires AllAdmissible(s, calls)
    ensures var t := After(s, calls);
            && FilledNow(t.orders, id) == FilledNow(s.orders, id) + AcceptedFills(s, calls, id)
            && Fills(t.events, id) == Fills(s.events, id) + AcceptedFills(s, calls, id)
    decreases |calls|
  {
    hide FilledNow, Fills, Step, Admissible, FillsBy;
    if |calls| > 0 {
      StepFills(s, calls[0], id);
      AfterFills(Step(s, calls[0]).state, calls[1..], id);
    }
  }

  /** The fills that a session made and lost again: those of a session that is not committed. */
  ghost function LostBy(s: State, work: Work, id: string): nat
    requires Admits(s, work)
  {
    if work.PdfCommand? || work.commits then 0 else AcceptedFills(s, work.calls, id)
  }

  ghost function LostFills(states: seq<State>, works: seq<Work>, i: nat, id: string): nat
    requires IsRun(states, works) && i < |states|
  {
    if i == 0 then 0 else LostFills(states, works, i - 1, id) + LostBy(states[i - 1], works[i - 1], id)
  }

  /** In every state of every run: one event for the fill that stands, and one for each fill that was rolled back. */
  lemma {:induction false} FillsAccounted(states: seq<State>, works: seq<Work>, i: nat, id: string)
    requires IsRun(states, works) && i < |states|
    ensures Fills(states[i].events, id) == FilledNow(states[i].orders, id) + LostFills(states, works, i, id)
  {
    hide FilledNow, Fills, After, AllAdmissible, AcceptedFills;
    if i == 0 {
      NoFills(id);
    } else {
      FillsAccounted(states, works, i - 1, id);
      if works[i - 1].Work? {
        AfterFills(states[i - 1], works[i - 1].calls, id);
      }
    }
  }

  lemma NoFills(id: string)
    ensures Fills(Empty().events, id) == 0 && FilledNow(Empty().orders, id) == 0
  {
  }

  lemma NowIsStatus(s: State, k: nat)
    requires RowsSafe(s) && k < |s.orders|
    ensures FilledNow(s.orders, s.orders[k].orderId) == if s.orders[k].status.Filled? then 1 else 0
  {
    var i := IndexOf(s.orders, s.orders[k].orderId);
    assert DistinctOrders(s.orders) && i <= |s.orders|;
  }

  /**
   * A filled order was submitted first and is filled once in the log. It raised exactly one event, and an unfilled
   * order none, if and only if no fill of it was rolled back.
   */
  lemma FilledOnceIff(states: seq<State>, works: seq<Work>, i: nat, k: nat)
    requires IsRun(states, works) && i < |states| && k < |states[i].orders|
    ensures var o := states[i].orders[k];
            && (o.status.Filled? <==> Moves(states[i].audit, o.orderId) == [Submitted, Filled])
            && (Fills(states[i].events, o.orderId) == (if o.status.Filled? then 1 else 0)
                <==> forall m :: 0 <= m < i ==> LostBy(states[m], works[m], o.orderId) == 0)
  {
    hide Decisions, Moves, Fills, FilledNow, IsRun, LostBy, LostFills;
    var o := states[i].orders[k];
    RunRecorded(states, works, i);
    assert OrderRecorded(states[i], o);
    RunRowsSafe(states, works, i);
    NowIsStatus(states[i], k);
    FillsAccounted(states, works, i, o.orderId);
    NoneLost(states, works, i, o.orderId);
  }

  lemma {:induction false} NoneLost(states: seq<State>, works: seq<Work>, i: nat, id: string)
    requires IsRun(states, works) && i < |states|
    ensures LostFills(states, works, i, id) == 0
       <==> forall m :: 0 <= m < i ==> LostBy(states[m], works[m], id) == 0
  {
    hide LostBy, End, Admits;
    if i > 0 {
      NoneLost(states, works, i - 1, id);
    }
  }
}
