/** Every service call on the rows themselves: when it succeeds, what it writes, and what it leaves alone. */
module CallsOnInputs {
  import opened Wrappers
  import opened Workflow
  import opened Rollbacks

  // ----- orders

  /** The first row of an order id. */
  predicate IsRowOf(orders: seq<Order>, i: int, id: string) {
    0 <= i < |orders| && orders[i].orderId == id && forall k :: 0 <= k < i ==> orders[k].orderId != id
  }

  lemma {:induction false} RowIsIndex(orders: seq<Order>, i: int, id: string)
    requires IsRowOf(orders, i, id)
    ensures IndexOf(orders, id) == i
  {
    if i < |orders| - 1 {
      RowIsIndex(orders[..|orders| - 1], i, id);
    }
  }

  /**
   * A move succeeds exactly along the five edges of the state machine, of which cancelling a cancelled order does
   * nothing. After any other success the order has the requested status, and one log entry and, for a fill, one event
   * are written; a refusal writes nothing.
   */
  lemma MoveOnInputs(s: State, c: Command, i: int)
    requires c.MoveOrder? && IsRowOf(s.orders, i, c.orderId)
    ensures var row, out := s.orders[i], Step(s, c);
            && (out.error == None <==>
                  || (row.status == Staged && (c.orderStatus == Submitted || c.orderStatus == Cancelled))
                  || (row.status == Submitted && (c.orderStatus == Filled || c.orderStatus == Cancelled))
                  || (row.status == Cancelled && c.orderStatus == Cancelled))
            && (out.error == None || (out.error == Some(IllegalTransition) && out.state == s))
            && (out.error == None && row.status == Cancelled ==> out.state == s)
            && (out.error == None && row.status != Cancelled ==>
                  && |out.state.orders| == |s.orders|
                  && out.state.orders[i] == row.(status := c.orderStatus, updatedAt := c.now)
                  && (forall k :: 0 <= k < |s.orders| && k != i ==> out.state.orders[k] == s.orders[k])
                  && out.state.audit
                       == s.audit + [Entry(c.actor, OrderMoved(c.orderStatus), c.orderId, row.household)]
                  && out.state.events
                       == s.events + (if c.orderStatus == Filled
                                      then [OrderFilled(row.household, c.orderId, row.approvalId)] else [])
                  && out.state == s.(orders := out.state.orders, audit := out.state.audit, events := out.state.events))
  {
    hide IndexOf;
    RowIsIndex(s.orders, i, c.orderId);
    assert s.events + [] == s.events;
  }

  lemma MoveUnknown(s: State, c: Command)
    requires c.MoveOrder? && forall k :: 0 <= k < |s.orders| ==> s.orders[k].orderId != c.orderId
    ensures Step(s, c) == Outcome(s, Some(OrderNotFound))
  {
  }

  /** The rows of one run among the trades, in order. */
  predicate AreRowsOf(trades: seq<TradeRow>, runId: string, rows: seq<nat>) {
    && (forall i :: 0 <= i < |rows| ==> rows[i] < |trades| && trades[rows[i]].runId == runId)
    && (forall i, j :: 0 <= i < j < |rows| ==> rows[i] < rows[j])
    && (forall k :: 0 <= k < |trades| && trades[k].runId == runId ==> k in rows)
  }

  /** What a run proposes: the payloads of its rows, in the order of the table. */
  lemma {:induction false} TradesOnInputs(trades: seq<TradeRow>, runId: string) returns (rows: seq<nat>)
    ensures AreRowsOf(trades, runId, rows) && |rows| == |TradesFor(trades, runId)|
    ensures forall i :: 0 <= i < |rows| ==> TradesFor(trades, runId)[i] == trades[rows[i]].payload
  {
    if |trades| == 0 {
      rows := [];
    } else {
      var n := |trades| - 1;
      var before := TradesOnInputs(trades[..n], runId);
      rows := before + if trades[n].runId == runId then [n] else [];
      RowsExtend(trades, runId, before);
    }
  }

  lemma RowsExtend(trades: seq<TradeRow>, runId: string, before: seq<nat>)
    requires |trades| > 0 && AreRowsOf(trades[..|trades| - 1], runId, before)
    ensures var n := |trades| - 1; AreRowsOf(trades, runId, before + if trades[n].runId == runId then [n] else [])
  {
    var n := |trades| - 1;
    var rows := before + if trades[n].runId == runId then [n] else [];
    forall k | 0 <= k < |trades| && trades[k].runId == runId
      ensures k in rows
    {
      if k < n {
        assert trades[..n][k] == trades[k];
      } else {
        assert rows[|rows| - 1] == n;
      }
    }
  }

  /**
   * Staging: the gates in their order. Past them, one staged order per trade of the run, in order, with the fresh ids,
   * unless the approval has orders already.
   */
  lemma StageOnInputs(s: State, c: Command)
    requires Admissible(s, c) && c.StageOrders?
    ensures var out, id := Step(s, c), c.approvalId;
            && (id !in s.approvals ==> out == Outcome(s, Some(ApprovalNotFound)))
            && (id in s.approvals && s.approvals[id].status != Approved ==> out == Outcome(s, Some(NotApproved)))
            && (id in s.approvals && s.approvals[id].status == Approved && s.approvals[id].runId == None ==>
                  out == Outcome(s, Some(NotAnOptimization)))
            && (id in s.approvals && s.approvals[id].status == Approved && s.approvals[id].runId != None ==>
                  && out.error == None
                  && if exists k :: 0 <= k < |s.orders| && s.orders[k].approvalId == id then out.state == s
                     else
                       && out.state == s.(orders := out.state.orders, audit := out.state.audit)
                       && |out.state.orders| >= |s.orders| && out.state.orders[..|s.orders|] == s.orders
                       && out.state.audit
                            == s.audit + [Entry(c.actor, OrdersStaged(|out.state.orders| - |s.orders|), id,
                                                s.approvals[id].household)])
  {
    hide TradesFor;
  }

  /** The orders that staging adds: one per trade of the run, in the order of the table, under the fresh ids. */
  lemma StagedRows(s: State, c: Command) returns (rows: seq<nat>)
    requires Admissible(s, c) && c.StageOrders? && c.approvalId in s.approvals
    requires s.approvals[c.approvalId].status == Approved && s.approvals[c.approvalId].runId != None
    requires forall k :: 0 <= k < |s.orders| ==> s.orders[k].approvalId != c.approvalId
    ensures AreRowsOf(s.trades, s.approvals[c.approvalId].runId.value, rows)
    ensures var a, t := s.approvals[c.approvalId], Step(s, c).state;
            && |rows| <= |c.ids| && |t.orders| == |s.orders| + |rows|
            && forall i :: 0 <= i < |rows| ==>
                 t.orders[|s.orders| + i]
                   == Order(c.ids[i], c.approvalId, a.runId.value, a.household, s.trades[rows[i]].payload, Staged,
                            c.now, c.now)
  {
    hide TradesFor;
    rows := TradesOnInputs(s.trades, s.approvals[c.approvalId].runId.value);
  }

  // ----- approvals and runs

  /** A request adds one pending row and one log entry. */
  lemma RequestOnInputs(s: State, c: Command)
    requires Admissible(s, c) && (c.RequestForRun? || c.RequestForReport?)
    ensures var t := Step(s, c).state;
            && Step(s, c).error == None
            && t.approvals.Keys == s.approvals.Keys + {c.requestId}
            && (forall id :: id in s.approvals && id != c.requestId ==> t.approvals[id] == s.approvals[id])
            && (c.RequestForRun? ==>
                  t.approvals[c.requestId]
                    == Approval(OptimizationRun, c.runId, Some(c.runId), c.household, Pending, None, c.now, None))
            && (c.RequestForReport? ==>
                  t.approvals[c.requestId]
                    == Approval(ReportSnapshot, c.snapshot, None, c.household, Pending, None, c.now, None))
            && t.audit == s.audit + [Entry("system:approval", ApprovalRequested, c.requestId, c.household)]
            && t == s.(approvals := t.approvals, audit := t.audit)
  {
    hide Fresh;
  }

  /** A decision succeeds exactly on a pending request; then it is recorded with its reviewer, and logged. */
  lemma DecideOnInputs(s: State, c: Command)
    requires c.Decide?
    ensures var out, id := Step(s, c), c.requestId;
            && (id !in s.approvals ==> out == Outcome(s, Some(ApprovalNotFound)))
            && (id in s.approvals && s.approvals[id].status != Pending ==> out == Outcome(s, Some(AlreadyDecided)))
            && (id in s.approvals && s.approvals[id].status == Pending ==>
                  && out.error == None
                  && out.state.approvals.Keys == s.approvals.Keys
                  && out.state.approvals[id]
                       == s.approvals[id].(status := c.decision, reviewer := Some(c.reviewer),
                                           reviewedAt := Some(c.now))
                  && (forall other :: other in s.approvals && other != id ==>
                        out.state.approvals[other] == s.approvals[other])
                  && out.state.audit
                       == s.audit + [Entry(c.reviewer, ApprovalDecided(c.decision), id, s.approvals[id].household)]
                  && out.state == s.(approvals := out.state.approvals, audit := out.state.audit))
  {
  }

  /** A persisted run adds its row, its trades in order, one log entry and, when asked, one pending request. */
  lemma PersistOnInputs(s: State, c: Command)
    requires Admissible(s, c) && c.PersistRun?
    ensures var t := Step(s, c).state;
            && Step(s, c).error == None
            && t.runs == s.runs[c.runId := c.household]
            && |t.trades| == |s.trades| + |c.payloads| && t.trades[..|s.trades|] == s.trades
            && (forall k :: 0 <= k < |c.payloads| ==>
                  t.trades[|s.trades| + k] == TradeRow(c.runId, c.payloads[k]))
            && t.orders == s.orders && t.breaks == s.breaks && t.reports == s.reports && t.events == s.events
            && (c.queued == None ==>
                  && t.approvals == s.approvals
                  && t.audit == s.audit + [Entry(c.actor, OptimizationComplete(|c.payloads|), c.runId, c.household)])
            && (c.queued != None ==>
                  && t.approvals
                       == s.approvals[c.queued.value := Approval(OptimizationRun, c.runId, Some(c.runId), c.household,
                                                                 Pending, None, c.now, None)]
                  && t.audit
                       == s.audit + [Entry(c.actor, OptimizationComplete(|c.payloads|), c.runId, c.household),
                                     Entry("system:approval", ApprovalRequested, c.queued.value, c.household)])
  {
    hide Fresh;
  }

  // ----- breaks and reports

  lemma BreaksOnInputs(s: State, c: Command)
    requires c.OpenBreak? || c.ResolveBreak?
    ensures var t := Step(s, c).state;
            && Step(s, c).error == None
            && (c.OpenBreak? ==>
                  && t == s.(breaks := t.breaks,
                             audit := s.audit + [Entry(c.actor, BreakOpened, c.breakId, c.household)])
                  && t.breaks.Keys == s.breaks.Keys + {c.breakId} && !t.breaks[c.breakId])
            && (c.ResolveBreak? ==>
                  && t == s.(breaks := t.breaks) && t.breaks.Keys == s.breaks.Keys
                  && (c.breakId in t.breaks ==> t.breaks[c.breakId]))
            && forall b :: b in s.breaks && b != c.breakId ==> t.breaks[b] == s.breaks[b]
  {
  }

  /** A build writes the artifacts of a new snapshot, no PDF, and one log entry that says what holds it back. */
  lemma BuildOnInputs(s: State, c: Command)
    requires Admissible(s, c) && c.BuildReport?
    ensures var t := Step(s, c).state;
            && Step(s, c).error == None && c.gate == None
            && t == s.(reports := s.reports[c.key := false], audit := t.audit)
            && t.audit
                 == s.audit + [Entry(c.actor,
                                     ReportBuilt(if exists b :: b in s.breaks && !s.breaks[b] then OpenBreaks
                                                 else AwaitingApproval), c.key.snapshot, c.key.household)]
  {
    BuildLeavesNoPdf(s, c);
    assert c.gate == None;
  }

  /**
   * A sign-off: refused without artifacts, otherwise recorded as an approved request; then the PDF is written exactly
   * when no break is open, the newest request reads approved and rendering works, or leaves a file in failing.
   */
  lemma SignOffOnInputs(s: State, c: Command)
    requires Admissible(s, c) && c.ApproveReport?
    ensures c.key !in s.reports ==> Step(s, c) == Outcome(s, Some(NoArtifacts))
    ensures c.key in s.reports ==>
              var out, t := Step(s, c), Step(s, c).state;
              var blocked := exists b :: b in s.breaks && !s.breaks[b];
              var rendered := !blocked && c.gate == Some(Approved);
              && (out.error == None <==> (rendered ==> c.rendering == Renders))
              && (out.error == None || out.error == Some(RenderFailed))
              && t.approvals
                   == s.approvals[c.requestId := Approval(ReportSnapshot, c.key.snapshot, None, c.key.household,
                                                          Approved, Some(c.reviewer), c.now, Some(c.now))]
              && t.reports
                   == s.reports[c.key := s.reports[c.key] || (rendered && c.rendering != Breaks(false))]
              && t.audit
                   == s.audit + [Entry("system:approval", ApprovalRequested, c.requestId, c.key.household),
                                 Entry(c.reviewer, ApprovalDecided(Approved), c.requestId, c.key.household)]
                      + (if out.error != None then []
                         else [Entry(c.reviewer,
                                     ReportSignedOff(if blocked then OpenBreaks
                                                     else if rendered then Delivered else AwaitingApproval),
                                     c.key.snapshot, c.key.household)])
              && t == s.(approvals := t.approvals, reports := t.reports, audit := t.audit)
  {
    hide Fresh, IsLatestStatus;
  }

  /** What a piece of work leaves: all of a committed session, the files and events of one that is not. */
  lemma WorkOnInputs(s: State, work: Work)
    requires Admits(s, work)
    ensures work.Work? && work.commits ==> End(s, work) == After(s, work.calls)
    ensures work.Work? && !work.commits ==>
              var t := After(s, work.calls);
              End(s, work) == State(s.runs, s.trades, s.approvals, s.orders, s.breaks, t.reports, s.audit, t.events)
    ensures work.PdfCommand? ==>
              End(s, work)
                == if work.key in s.reports && work.rendering != Breaks(false)
                   then s.(reports := s.reports[work.key := true]) else s
    ensures work.Work? && work.calls == [] ==> After(s, work.calls) == s
    ensures work.Work? && work.calls != [] ==>
              && Admissible(s, work.calls[0]) && AllAdmissible(Step(s, work.calls[0]).state, work.calls[1..])
              && After(s, work.calls) == After(Step(s, work.calls[0]).state, work.calls[1..])
  {
    hide Step, Admissible;
  }
}
