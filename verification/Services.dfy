/** The service functions themselves, changing the rows in place; each is proved to perform its step of the workflow. */
module Services {
  import opened Wrappers
  import opened Workflow
  import opened WorkflowSafety
  import opened WorkflowInvariants
  import opened AuditReplay
  import opened Rollbacks

  /** What every reachable state satisfies: the safety invariants, and a log that agrees with the rows. */
  ghost predicate Sound(s: State) {
    RowsSafe(s) && Recorded(s)
  }

  /** What a call does over and above: nothing that lasts is undone, and signed PDFs stay the only ones. */
  ghost predicate Advances(s: State, t: State) {
    Evolves(s, t) && (PdfsSigned(s) ==> PdfsSigned(t))
  }

  lemma StepSound(s: State, c: Command)
    ensures Sound(s) && Admissible(s, c) ==> Sound(Step(s, c).state) && Advances(s, Step(s, c).state)
  {
    hide RowsSafe, Recorded, Admissible, Step, Evolves, PdfsSigned;
    if Sound(s) && Admissible(s, c) {
      StepRowsSafe(s, c);
      StepRecorded(s, c);
      StepEvolves(s, c);
      if PdfsSigned(s) {
        StepSafe(s, c);
      }
    }
  }

  lemma CommandSound(s: State, c: Command, commitWorks: bool)
    ensures Admissible(s, c) && Sound(s) ==>
              Sound(CommandEnd(s, c, commitWorks)) && Evolves(s, CommandEnd(s, c, commitWorks))
  {
    hide RowsSafe, Recorded, Admissible, Step, Evolves, CommandEnd;
    if Admissible(s, c) && Sound(s) {
      CommandIsSession(s, c, commitWorks);
      EndEvolves(s, Work([c], Step(s, c).error.None? && commitWorks));
      EndRowsSafe(s, Work([c], Step(s, c).error.None? && commitWorks));
      EndRecorded(s, Work([c], Step(s, c).error.None? && commitWorks));
    }
  }

  lemma PdfSound(s: State, key: ReportKey, rendering: Rendering)
    ensures var t := End(s, PdfCommand(key, rendering)); (Sound(s) ==> Sound(t)) && Evolves(s, t)
  {
    hide RowsSafe, Recorded, Evolves;
    var work := PdfCommand(key, rendering);
    EndEvolves(s, work);
    if Sound(s) {
      EndRowsSafe(s, work);
      EndRecorded(s, work);
    }
  }

  lemma EmptySound()
    ensures Sound(Empty())
  {
    hide RowsSafe, Recorded;
    EmptySafe();
    EmptyRecorded();
  }

  class Session {
    var runs: map<string, string>
    var trades: seq<TradeRow>
    var approvals: map<string, Approval>
    var orders: seq<Order>
    var breaks: map<string, bool>
    var reports: map<ReportKey, bool>
    var audit: seq<Entry>
    var events: seq<OrderFilled>

    ghost function Rows(): State
      reads this
    {
      State(runs, trades, approvals, orders, breaks, reports, audit, events)
    }

    /** The class invariant: kept by every service call whose uuids are fresh. */
    ghost predicate Valid()
      reads this
    {
      Sound(Rows())
    }

    constructor ()
      ensures Rows() == Empty() && Valid()
    {
      runs, trades, approvals, orders := map[], [], map[], [];
      breaks, reports, audit, events := map[], map[], [], [];
      new;
      EmptySound();
    }

    method WriteAudit(actor: string, action: Action, resource: string, household: string)
      modifies this`audit
      ensures Rows() == Audited(old(Rows()), Entry(actor, action, resource, household))
    {
      audit := audit + [Entry(actor, action, resource, household)];
    }

    // ----- approvals

    method CreateApproval(requestId: string, household: string, subject: Subject, subjectId: string,
                          runId: Option<string>, now: int)
      modifies this`approvals, this`audit
      ensures Rows() == Requested(old(Rows()), requestId, subject, subjectId, runId, household, now)
    {
      approvals := approvals[requestId := Approval(subject, subjectId, runId, household, Pending, None, now, None)];
      WriteAudit("system:approval", ApprovalRequested, requestId, household);
    }

    method CreateApprovalRequest(requestId: string, runId: string, household: string, now: int)
      modifies this`approvals, this`audit
      ensures Rows() == Requested(old(Rows()), requestId, OptimizationRun, runId, Some(runId), household, now)
      ensures old(Valid()) && Admissible(old(Rows()), RequestForRun(requestId, runId, household, now)) ==>
                Valid() && Advances(old(Rows()), Rows())
    {
      hide Sound, Advances, Admissible;
      StepSound(Rows(), RequestForRun(requestId, runId, household, now));
      CreateApproval(requestId, household, OptimizationRun, runId, Some(runId), now);
    }

    method CreateReportApprovalRequest(requestId: string, snapshot: string, household: string, now: int)
      modifies this`approvals, this`audit
      ensures Rows() == Requested(old(Rows()), requestId, ReportSnapshot, snapshot, None, household, now)
      ensures old(Valid()) && Admissible(old(Rows()), RequestForReport(requestId, snapshot, household, now)) ==>
                Valid() && Advances(old(Rows()), Rows())
    {
      hide Sound, Advances, Admissible;
      StepSound(Rows(), RequestForReport(requestId, snapshot, household, now));
      CreateApproval(requestId, household, ReportSnapshot, snapshot, None, now);
    }

    method UpdateApprovalStatus(requestId: string, status: ApprovalStatus, reviewer: string, now: int)
      returns (error: Option<Error>)
      modifies this`approvals, this`audit
      ensures Outcome(Rows(), error) == Decided(old(Rows()), requestId, status, reviewer, now)
      ensures old(Valid()) && Admissible(old(Rows()), Decide(requestId, status, reviewer, now)) ==>
                Valid() && Advances(old(Rows()), Rows())
    {
      hide Sound, Advances, Admissible;
      StepSound(Rows(), Decide(requestId, status, reviewer, now));
      if requestId !in approvals {
        return Some(ApprovalNotFound);
      }
      var row := approvals[requestId];
      if row.status != Pending {
        return Some(AlreadyDecided);
      }
      row := row.(status := status);
      row := row.(reviewer := Some(reviewer));
      row := row.(reviewedAt := Some(now));
      approvals := approvals[requestId := row];
      WriteAudit(reviewer, ApprovalDecided(status), requestId, row.household);
      error := None;
    }

    /** The status of the newest request for a snapshot; any of those that tie. */
    method ReportApprovalStatus(snapshot: string) returns (answer: Option<ApprovalStatus>)
      ensures IsLatestStatus(approvals, snapshot, answer)
    {
      answer := None;
      var newest: Option<string> := None;
      var pending := approvals.Keys;
      while pending != {}
        invariant pending <= approvals.Keys
        invariant newest.None? ==>
                    answer.None? && forall id :: id in approvals - pending ==> !IsRequestFor(approvals[id], snapshot)
        invariant newest.Some? ==>
                    && newest.value in approvals && IsRequestFor(approvals[newest.value], snapshot)
                    && answer == Some(approvals[newest.value].status)
                    && forall other :: other in approvals - pending && IsRequestFor(approvals[other], snapshot) ==>
                         approvals[other].createdAt <= approvals[newest.value].createdAt
        decreases pending
      {
        var id :| id in pending;
        if IsRequestFor(approvals[id], snapshot)
           && (newest.None? || approvals[newest.value].createdAt < approvals[id].createdAt) {
          newest, answer := Some(id), Some(approvals[id].status);
        }
        pending := pending - {id};
      }
    }

    // ----- runs and orders

    method PersistOptimization(runId: string, household: string, payloads: seq<Payload>, queued: Option<string>,
                               actor: string, now: int)
      requires Admissible(Rows(), PersistRun(runId, household, payloads, queued, actor, now))
      modifies this`runs, this`trades, this`approvals, this`audit
      ensures Rows() == Step(old(Rows()), PersistRun(runId, household, payloads, queued, actor, now)).state
      ensures old(Valid()) && Admissible(old(Rows()), PersistRun(runId, household, payloads, queued, actor, now)) ==>
                Valid() && Advances(old(Rows()), Rows())
    {
      hide Sound, Advances, Admissible;
      StepSound(Rows(), PersistRun(runId, household, payloads, queued, actor, now));
      runs := runs[runId := household];
      for k := 0 to |payloads|
        invariant trades == old(trades) + RowsOf(runId, payloads[..k])
        invariant approvals == old(approvals) && audit == old(audit) && runs == old(runs)[runId := household]
      {
        assert RowsOf(runId, payloads[..k + 1]) == RowsOf(runId, payloads[..k]) + [TradeRow(runId, payloads[k])];
        trades := trades + [TradeRow(runId, payloads[k])];
      }
      assert payloads[..|payloads|] == payloads;
      WriteAudit(actor, OptimizationComplete(|payloads|), runId, household);
      if queued.Some? {
        CreateApprovalRequest(queued.value, runId, household, now);
      }
    }

    /** The trades of a run, in row order. */
    method SelectTrades(runId: string) returns (payloads: seq<Payload>)
      ensures payloads == TradesFor(trades, runId)
    {
      payloads := [];
      for k := 0 to |trades|
        invariant payloads == TradesFor(trades[..k], runId)
      {
        assert trades[..k + 1][..k] == trades[..k];
        if trades[k].runId == runId {
          payloads := payloads + [trades[k].payload];
        }
      }
      assert trades[..|trades|] == trades;
    }

    method StageOrdersFromApproval(approvalId: string, actor: string, ids: seq<string>, now: int)
      returns (error: Option<Error>)
      requires Admissible(Rows(), StageOrders(approvalId, actor, ids, now))
      modifies this`orders, this`audit
      ensures Outcome(Rows(), error) == Step(old(Rows()), StageOrders(approvalId, actor, ids, now))
      ensures old(Valid()) && Admissible(old(Rows()), StageOrders(approvalId, actor, ids, now)) ==>
                Valid() && Advances(old(Rows()), Rows())
    {
      hide Sound, Advances, TradesFor;
      StepSound(Rows(), StageOrders(approvalId, actor, ids, now));
      if approvalId !in approvals {
        return Some(ApprovalNotFound);
      }
      var approval := approvals[approvalId];
      if approval.status != Approved {
        return Some(NotApproved);
      }
      if approval.runId.None? {
        return Some(NotAnOptimization);
      }
      if HasOrders(orders, approvalId) {
        return None;
      }
      var payloads := SelectTrades(approval.runId.value);
      ghost var made := NewOrders(approvalId, approval.runId.value, approval.household, payloads, ids, now);
      for k := 0 to |payloads|
        invariant orders == old(orders) + made[..k] && audit == old(audit)
      {
        orders := orders
            + [Order(ids[k], approvalId, approval.runId.value, approval.household, payloads[k], Staged, now, now)];
        assert made[..k + 1] == made[..k] + [made[k]];
      }
      assert made[..|payloads|] == made;
      WriteAudit(actor, OrdersStaged(|payloads|), approvalId, approval.household);
      error := None;
    }

    method UpdateOrderStatus(orderId: string, status: OrderStatus, actor: string, now: int)
      returns (error: Option<Error>)
      modifies this`orders, this`audit, this`events
      ensures Outcome(Rows(), error) == Moved(old(Rows()), orderId, status, actor, now)
      ensures old(Valid()) && Admissible(old(Rows()), MoveOrder(orderId, status, actor, now)) ==>
                Valid() && Advances(old(Rows()), Rows())
    {
      hide Sound, Advances, Admissible;
      StepSound(Rows(), MoveOrder(orderId, status, actor, now));
      var i := IndexOf(orders, orderId);
      if i == |orders| {
        return Some(OrderNotFound);
      }
      var row := orders[i];
      if row.status == status {
        if row.status == Cancelled {
          return None;
        }
        return Some(IllegalTransition);
      }
      if status !in Allowed(row.status) {
        return Some(IllegalTransition);
      }
      row := row.(status := status);
      row := row.(updatedAt := now);
      orders := orders[i := row];
      WriteAudit(actor, OrderMoved(status), orderId, row.household);
      if status == Filled {
        events := events + [OrderFilled(row.household, orderId, row.approvalId)];
      }
      error := None;
    }

    // ----- reports

    /** Render the external PDF when reconciliation allows it and an advisor has approved. */
    method AttachExternalPdf(key: ReportKey, rendering: Rendering)
      returns (delivery: Delivery, gate: Option<ApprovalStatus>)
      modifies this`reports
      ensures IsLatestStatus(old(approvals), key.snapshot, gate)
      ensures delivery == DeliveryOf(old(Rows()), gate, rendering)
      ensures Rows() == WithPdf(old(Rows()), key, delivery, rendering)
    {
      hide IsLatestStatus, AnyOpen;
      gate := ReportApprovalStatus(key.snapshot);
      var was := key in reports && reports[key];
      reports := reports[key := was];
      if AnyOpen(breaks) {
        return OpenBreaks, gate;
      }
      if gate != Some(Approved) {
        return AwaitingApproval, gate;
      }
      if rendering.Breaks? {
        reports := reports[key := was || rendering.fileLeft];
        return RenderError, gate;
      }
      reports := reports[key := true];
      delivery := Delivered;
    }

    method BuildAndWriteReports(key: ReportKey, actor: string, rendering: Rendering)
      returns (error: Option<Error>, gate: Option<ApprovalStatus>)
      modifies this`reports, this`audit
      ensures IsLatestStatus(old(approvals), key.snapshot, gate)
      ensures Outcome(Rows(), error) == Built(old(Rows()), key, actor, gate, rendering)
      ensures old(Valid()) && Admissible(old(Rows()), BuildReport(key, actor, gate, rendering)) ==>
                Valid() && Advances(old(Rows()), Rows())
    {
      hide Sound, Advances, Admissible, IsLatestStatus;
      var delivery;
      delivery, gate := AttachExternalPdf(key, rendering);
      StepSound(old(Rows()), BuildReport(key, actor, gate, rendering));
      if delivery.RenderError? {
        return Some(RenderFailed), gate;
      }
      WriteAudit(actor, ReportBuilt(delivery), key.snapshot, key.household);
      error := None;
    }

    method ApproveAndRenderReport(key: ReportKey, reviewer: string, requestId: string, now: int, rendering: Rendering)
      returns (error: Option<Error>, gate: Option<ApprovalStatus>)
      modifies this`approvals, this`reports, this`audit
      ensures key in old(reports) ==>
              IsLatestStatus(SignedOff(old(Rows()), key, reviewer, requestId, now).approvals, key.snapshot, gate)
      ensures Outcome(Rows(), error) == ReportApproved(old(Rows()), key, reviewer, requestId, now, gate, rendering)
      ensures old(Valid()) && Admissible(old(Rows()), ApproveReport(key, reviewer, requestId, now, gate, rendering)) ==>
                Valid() && Advances(old(Rows()), Rows())
    {
      hide Sound, Advances, Admissible, IsLatestStatus;
      gate := None;
      if key !in reports {
        StepSound(Rows(), ApproveReport(key, reviewer, requestId, now, gate, rendering));
        return Some(NoArtifacts), gate;
      }
      CreateReportApprovalRequest(requestId, key.snapshot, key.household, now);
      var undecided := UpdateApprovalStatus(requestId, Approved, reviewer, now);
      assert undecided.None?;
      var delivery;
      delivery, gate := AttachExternalPdf(key, rendering);
      StepSound(old(Rows()), ApproveReport(key, reviewer, requestId, now, gate, rendering));
      if delivery.RenderError? {
        return Some(RenderFailed), gate;
      }
      WriteAudit(reviewer, ReportSignedOff(delivery), key.snapshot, key.household);
      error := None;
    }

    /** The approval command: its session is committed unless the sign-off raises or the commit fails. */
    method ReportApprove(key: ReportKey, reviewer: string, requestId: string, now: int, rendering: Rendering,
                         commitWorks: bool)
      returns (error: Option<Error>, ghost gate: Option<ApprovalStatus>)
      modifies this`runs, this`trades, this`approvals, this`orders, this`breaks, this`reports, this`audit
      ensures var s, c := old(Rows()), ApproveReport(key, reviewer, requestId, now, gate, rendering);
              Admissible(s, c) ==>
                && error == Step(s, c).error
                && Rows() == CommandEnd(s, c, commitWorks)
                && (old(Valid()) ==> Valid() && Evolves(s, Rows()))
    {
      hide Sound, Evolves, Admissible, ReportApproved;
      ghost var s := Rows();
      var rows := (runs, trades, approvals, orders, breaks, audit);
      var answer;
      error, answer := ApproveAndRenderReport(key, reviewer, requestId, now, rendering);
      gate := answer;
      CommandSound(s, ApproveReport(key, reviewer, requestId, now, gate, rendering), commitWorks);
      if error.Some? || !commitWorks {
        runs, trades, approvals, orders, breaks, audit := rows.0, rows.1, rows.2, rows.3, rows.4, rows.5;
      }
    }

    /** The PDF command: renders the report's PDF without a session and without a gate. */
    method ReportPdf(key: ReportKey, rendering: Rendering) returns (error: Option<Error>)
      modifies this`reports
      ensures Rows() == End(old(Rows()), PdfCommand(key, rendering))
      ensures error == if key !in old(reports) then Some(NoArtifacts)
                       else if rendering.Breaks? then Some(RenderFailed) else None
      ensures (old(Valid()) ==> Valid()) && Evolves(old(Rows()), Rows())
    {
      hide Sound, Evolves;
      PdfSound(Rows(), key, rendering);
      if key !in reports {
        return Some(NoArtifacts);
      }
      if rendering.Renders? || rendering.fileLeft {
        reports := reports[key := true];
      }
      error := if rendering.Breaks? then Some(RenderFailed) else None;
    }
  }
}
