/** What the gates guarantee over whole runs, and where they guarantee less than their documentation suggests. */
module WorkflowTheorems {
  import opened Wrappers
  import opened Workflow
  import opened WorkflowSafety
  import opened WorkflowInvariants
  import opened Rollbacks

  // ----- orders

  /**
   * An order seen at any time has, from then on, an approved optimization request of its own run, and stays that
   * order.
   */
  lemma OrdersStayApproved(states: seq<State>, works: seq<Work>, i: nat, j: nat, k: nat)
    requires IsRun(states, works) && i <= j < |states| && k < |states[i].orders|
    ensures k < |states[j].orders| && OrderKept(states[i].orders[k], states[j].orders[k])
    ensures Backed(states[i].orders[k], states[i].approvals) && Backed(states[j].orders[k], states[j].approvals)
    ensures states[j].approvals[states[i].orders[k].approvalId] == states[i].approvals[states[i].orders[k].approvalId]
  {
    hide IsRun, TradesFor, OrdersFor;
    RunRowsSafe(states, works, i);
    RunRowsSafe(states, works, j);
    RunEvolves(states, works, i, j);
    assert OrderKept(states[i].orders[k], states[j].orders[k]);
    assert Backed(states[i].orders[k], states[i].approvals);
    assert ApprovalKept(states[i].approvals[states[i].orders[k].approvalId],
                        states[j].approvals[states[i].orders[k].approvalId]);
  }

  /** Filled and cancelled orders never change again. */
  lemma TerminalOrdersFixed(states: seq<State>, works: seq<Work>, i: nat, j: nat, k: nat)
    requires IsRun(states, works) && i <= j < |states| && k < |states[i].orders|
            && Terminal(states[i].orders[k].status)
    ensures k < |states[j].orders| && states[j].orders[k] == states[i].orders[k]
  {
    hide IsRun, TradesFor, OrdersFor;
    RunEvolves(states, works, i, j);
    assert OrderKept(states[i].orders[k], states[j].orders[k]);
  }

  /** Some call of the session stages the approval without an error. */
  ghost predicate Stages(s: State, calls: seq<Command>, id: string)
    requires AllAdmissible(s, calls)
    decreases |calls|
  {
    && |calls| > 0
    && ((calls[0].StageOrders? && calls[0].approvalId == id && Step(s, calls[0]).error.None?)
        || Stages(Step(s, calls[0]).state, calls[1..], id))
  }

  /**
   * However often an approval is staged, and whatever happens between, its orders are its run's trades, one to one:
   * a committed session that stages it establishes it, and it holds in every later state.
   */
  lemma StagedOneToOne(states: seq<State>, works: seq<Work>, i: nat, j: nat, id: string)
    requires IsRun(states, works) && i < j < |states|
    requires works[i].Work? && works[i].commits && Stages(states[i], works[i].calls, id)
    ensures id in states[j].approvals && states[j].approvals[id].runId.Some?
    ensures OrdersFor(states[j].orders, id) == TradesFor(states[j].trades, states[j].approvals[id].runId.value)
  {
    hide TradesFor, OrdersFor, After, Stages;
    RunRowsSafe(states, works, i);
    RunRowsSafe(states, works, j);
    RunEvolves(states, works, i + 1, j);
    SessionIsLogged(states[i], works[i].calls, id);
    LogKept(states[i + 1].audit, states[j].audit, id);
  }

  lemma {:induction false} SessionIsLogged(s: State, calls: seq<Command>, id: string)
    requires RowsSafe(s) && AllAdmissible(s, calls) && Stages(s, calls, id)
    ensures WasStaged(After(s, calls).audit, id)
    decreases |calls|
  {
    hide RowsSafe, Step, Admissible, WasStaged, Evolves;
    var t := Step(s, calls[0]).state;
    StepRowsSafe(s, calls[0]);
    if calls[0].StageOrders? && calls[0].approvalId == id && Step(s, calls[0]).error.None? {
      StagingIsLogged(s, calls[0]);
      AfterEvolves(t, calls[1..]);
      EvolvesLog(t, After(t, calls[1..]));
      LogKept(t.audit, After(t, calls[1..]).audit, id);
    } else {
      SessionIsLogged(t, calls[1..], id);
    }
  }

  lemma EvolvesLog(s: State, t: State)
    requires Evolves(s, t)
    ensures s.audit <= t.audit
  {
  }

  lemma StagingIsLogged(s: State, c: Command)
    requires RowsSafe(s) && Admissible(s, c) && c.StageOrders? && Step(s, c).error.None?
    ensures WasStaged(Step(s, c).state.audit, c.approvalId)
  {
    hide TradesFor, OrdersFor;
    var t := Step(s, c).state;
    HasOrdersIff(s.orders, c.approvalId);
    if t != s {
      assert t.audit[|s.audit|].action.OrdersStaged?;
    }
  }

  lemma LogKept(before: seq<Entry>, after: seq<Entry>, id: string)
    requires before <= after && WasStaged(before, id)
    ensures WasStaged(after, id)
  {
  }

  /** Staging an approval again adds no order. */
  lemma RestagingAddsNothing(s: State, c: Command)
    requires RowsSafe(s) && Admissible(s, c) && c.StageOrders? && WasStaged(s.audit, c.approvalId)
    ensures Step(s, c).state.orders == s.orders
  {
    hide TradesFor, OrdersFor;
    HasOrdersIff(s.orders, c.approvalId);
  }

  // ----- one run, several approvals

  /** The orders of one run, whatever approval staged them. */
  function RunOrders(orders: seq<Order>, runId: string): seq<Payload> {
    if |orders| == 0 then []
    else
      var last := orders[|orders| - 1];
      RunOrders(orders[..|orders| - 1], runId) + if last.runId == runId then [last.payload] else []
  }

  /** Orders whose approval belongs to a run carry that run. */
  ghost predicate Carry(orders: seq<Order>, id: string, runId: string) {
    forall i :: 0 <= i < |orders| && orders[i].approvalId == id ==> orders[i].runId == runId
  }

  lemma {:induction false} TwoApprovalsAdd(orders: seq<Order>, a: string, b: string, runId: string)
    requires a != b && Carry(orders, a, runId) && Carry(orders, b, runId)
    ensures |OrdersFor(orders, a)| + |OrdersFor(orders, b)| <= |RunOrders(orders, runId)|
  {
    if |orders| > 0 {
      TwoApprovalsAdd(orders[..|orders| - 1], a, b, runId);
    }
  }

  lemma {:induction false} OneApprovalCovers(orders: seq<Order>, a: string, runId: string)
    requires Carry(orders, a, runId)
    requires forall i :: 0 <= i < |orders| && orders[i].runId == runId ==> orders[i].approvalId == a
    ensures RunOrders(orders, runId) == OrdersFor(orders, a)
  {
    if |orders| > 0 {
      OneApprovalCovers(orders[..|orders| - 1], a, runId);
    }
  }

  lemma {:induction false} NoRunOrders(orders: seq<Order>, runId: string)
    requires forall i :: 0 <= i < |orders| ==> orders[i].runId != runId
    ensures RunOrders(orders, runId) == []
  {
    if |orders| > 0 {
      NoRunOrders(orders[..|orders| - 1], runId);
    }
  }

  ghost predicate StagedFor(s: State, a: string, runId: string) {
    a in s.approvals && s.approvals[a].runId == Some(runId) && HasOrders(s.orders, a)
  }

  /**
   * Staging is idempotent per approval, not per run: a run with trades is ordered at most once exactly when at most
   * one of its approvals has been staged.
   */
  lemma RunOrderedOnceIff(s: State, runId: string)
    requires RowsSafe(s) && TradesFor(s.trades, runId) != []
    ensures RunOrders(s.orders, runId) == [] || RunOrders(s.orders, runId) == TradesFor(s.trades, runId)
       <==> forall a, b :: StagedFor(s, a, runId) && StagedFor(s, b, runId) ==> a == b
  {
    hide TradesFor, OrdersFor, RunOrders, HasOrders, DistinctOrders;
    if a, b :| StagedFor(s, a, runId) && StagedFor(s, b, runId) && a != b {
      StagedLength(s, a, runId);
      StagedLength(s, b, runId);
      TwoApprovalsAdd(s.orders, a, b, runId);
    } else if i :| 0 <= i < |s.orders| && s.orders[i].runId == runId {
      var a := s.orders[i].approvalId;
      OrderStages(s, i);
      StagedLength(s, a, runId);
      forall k | 0 <= k < |s.orders| && s.orders[k].runId == runId
        ensures s.orders[k].approvalId == a
      {
        OrderStages(s, k);
        assert StagedFor(s, s.orders[k].approvalId, runId) && StagedFor(s, a, runId);
      }
      OneApprovalCovers(s.orders, a, runId);
    } else {
      NoRunOrders(s.orders, runId);
    }
  }

  lemma OrderStages(s: State, i: nat)
    requires RowsSafe(s) && i < |s.orders|
    ensures StagedFor(s, s.orders[i].approvalId, s.orders[i].runId)
  {
  }

  lemma StagedLength(s: State, a: string, runId: string)
    requires RowsSafe(s) && StagedFor(s, a, runId)
    ensures OrdersFor(s.orders, a) == TradesFor(s.trades, runId) && Carry(s.orders, a, runId)
  {
    hide TradesFor, OrdersFor;
    HasOrdersIff(s.orders, a);
    forall i | 0 <= i < |s.orders| && s.orders[i].approvalId == a
      ensures s.orders[i].runId == runId
    {
      assert Backed(s.orders[i], s.approvals);
    }
  }

  // ----- reports

  /**
   * A PDF in any state, never left ungated while unsigned: then and ever after, a named reviewer has approved that
   * snapshot.
   */
  lemma PdfStaysSigned(states: seq<State>, works: seq<Work>, i: nat, j: nat, key: ReportKey)
    requires IsRun(states, works) && i <= j < |states| && HasPdf(states[i], key)
    requires forall m :: 0 <= m < i ==> Covered(states[m], works[m], key)
    ensures HasPdf(states[j], key) && SignedFor(states[i].approvals, key.snapshot)
            && SignedFor(states[j].approvals, key.snapshot)
  {
    hide IsRun, TradesFor, Covered, SignedFor;
    CoveredSigned(states, works, i, key);
    RunEvolves(states, works, i, j);
    SignedStays(states[i], states[j], key.snapshot);
  }

  /** Building a report never delivers a PDF: its snapshot is new, so nobody can have approved it yet. */
  lemma BuildNeverDelivers(s: State, c: Command)
    requires Admissible(s, c) && c.BuildReport?
    ensures c.gate == None
    ensures Step(s, c).error.None? && !HasPdf(Step(s, c).state, c.key)
    ensures Step(s, c).state.audit
            == s.audit + [Entry(c.actor, ReportBuilt(if AnyOpen(s.breaks) then OpenBreaks else AwaitingApproval),
                                                       c.key.snapshot, c.key.household)]
  {
    hide TradesFor;
  }

  // ----- what the newest request says

  /** Some request of the snapshot among the ids is at least as new as all of them. */
  ghost predicate IsNewest(approvals: map<string, Approval>, snapshot: string, ids: set<string>, id: string) {
    && id in ids && id in approvals && IsRequestFor(approvals[id], snapshot)
    && forall other :: other in ids && other in approvals && IsRequestFor(approvals[other], snapshot) ==>
         approvals[other].createdAt <= approvals[id].createdAt
  }

  lemma {:induction false} NewestAmong(approvals: map<string, Approval>, snapshot: string, ids: set<string>)
    ensures (exists id :: IsNewest(approvals, snapshot, ids, id))
         || forall id :: id in ids && id in approvals ==> !IsRequestFor(approvals[id], snapshot)
    decreases ids
  {
    if ids != {} {
      var x :| x in ids;
      var rest := ids - {x};
      NewestAmong(approvals, snapshot, rest);
      if x in approvals && IsRequestFor(approvals[x], snapshot) {
        if id :| IsNewest(approvals, snapshot, rest, id) {
          var best := if approvals[id].createdAt <= approvals[x].createdAt then x else id;
          assert IsNewest(approvals, snapshot, ids, best);
        } else {
          assert IsNewest(approvals, snapshot, ids, x);
        }
      } else if id :| IsNewest(approvals, snapshot, rest, id) {
        assert IsNewest(approvals, snapshot, ids, id);
      }
    }
  }

  /** The query always has an answer, and it is the status of a newest request. */
  lemma AnswerExists(approvals: map<string, Approval>, snapshot: string) returns (answer: Option<ApprovalStatus>)
    ensures IsLatestStatus(approvals, snapshot, answer)
  {
    NewestAmong(approvals, snapshot, approvals.Keys);
    if id :| IsNewest(approvals, snapshot, approvals.Keys, id) {
      answer := Some(approvals[id].status);
    } else {
      answer := None;
    }
  }

  /** Every answer the database may give is approved. */
  ghost predicate SurelyApproved(approvals: map<string, Approval>, snapshot: string) {
    forall answer :: IsLatestStatus(approvals, snapshot, answer) ==> answer == Some(Approved)
  }

  /** A request of the snapshot that is pending or rejected. */
  predicate IsUnapproved(row: Approval, snapshot: string) {
    IsRequestFor(row, snapshot) && !row.status.Approved?
  }

  /** An approved request of the snapshot that is strictly newer than every unapproved one. */
  ghost predicate IsNewestVerdict(approvals: map<string, Approval>, snapshot: string, id: string) {
    && id in approvals && IsRequestFor(approvals[id], snapshot) && approvals[id].status.Approved?
    && forall other :: other in approvals && IsUnapproved(approvals[other], snapshot) ==>
         approvals[other].createdAt < approvals[id].createdAt
  }

  ghost predicate ApprovedIsNewest(approvals: map<string, Approval>, snapshot: string) {
    exists id :: IsNewestVerdict(approvals, snapshot, id)
  }

  /**
   * Whatever requests there are: the gate surely reads approved exactly when an approval is newer than every other
   * verdict.
   */
  lemma GateApprovedIff(approvals: map<string, Approval>, snapshot: string)
    ensures SurelyApproved(approvals, snapshot) <==> ApprovedIsNewest(approvals, snapshot)
  {
    if ApprovedIsNewest(approvals, snapshot) {
      var id :| IsNewestVerdict(approvals, snapshot, id);
      forall answer | IsLatestStatus(approvals, snapshot, answer)
        ensures answer == Some(Approved)
      {
        assert answer.Some?;
      }
    }
    if SurelyApproved(approvals, snapshot) {
      NewestAmong(approvals, snapshot, approvals.Keys);
      if id :| IsNewest(approvals, snapshot, approvals.Keys, id) {
        assert IsLatestStatus(approvals, snapshot, Some(approvals[id].status));
        forall other | other in approvals && IsUnapproved(approvals[other], snapshot)
          ensures approvals[other].createdAt < approvals[id].createdAt
        {
          if approvals[other].createdAt == approvals[id].createdAt {
            assert IsLatestStatus(approvals, snapshot, Some(approvals[other].status));
          }
        }
        assert IsNewestVerdict(approvals, snapshot, id);
      } else {
        assert IsLatestStatus(approvals, snapshot, None);
      }
    }
  }

  /**
   * In every reachable state with a PDF never left ungated while unsigned: the sign-off is on record, and it still
   * stands exactly when no verdict since is as new.
   */
  lemma DeliveredGateIff(states: seq<State>, works: seq<Work>, i: nat, key: ReportKey)
    requires IsRun(states, works) && i < |states| && HasPdf(states[i], key)
    requires forall m :: 0 <= m < i ==> Covered(states[m], works[m], key)
    ensures SignedFor(states[i].approvals, key.snapshot)
    ensures SurelyApproved(states[i].approvals, key.snapshot) <==> ApprovedIsNewest(states[i].approvals, key.snapshot)
  {
    hide IsRun, SurelyApproved, ApprovedIsNewest, SignedFor, HasPdf, Covered;
    PdfStaysSigned(states, works, i, i, key);
    GateApprovedIff(states[i].approvals, key.snapshot);
  }

  /** Every request for the snapshot is approved or was created before the instant. */
  ghost predicate NoRival(s: State, snapshot: string, now: int) {
    forall id :: id in s.approvals && IsUnapproved(s.approvals[id], snapshot) ==> s.approvals[id].createdAt < now
  }

  ghost predicate ClockAtLeast(s: State, now: int) {
    forall id :: id in s.approvals ==> s.approvals[id].createdAt <= now
  }

  /**
   * When the clock has not run backwards, a sign-off opens the gate for certain exactly when no other unapproved
   * request of the snapshot was created at the very same instant.
   */
  lemma SignOffOpensGate(s: State, key: ReportKey, reviewer: string, requestId: string, now: int)
    requires requestId !in s.approvals && ClockAtLeast(s, now)
    ensures SurelyApproved(SignedOff(s, key, reviewer, requestId, now).approvals, key.snapshot)
            <==> NoRival(s, key.snapshot, now)
  {
    var after := SignedOff(s, key, reviewer, requestId, now).approvals;
    var mine := Approval(ReportSnapshot, key.snapshot, None, key.household, Approved, Some(reviewer), now, Some(now));
    assert after == s.approvals[requestId := mine];
    hide Requested, Decided, SignedOff, SurelyApproved;
    GateApprovedIff(after, key.snapshot);
    if NoRival(s, key.snapshot, now) {
      assert IsRequestFor(after[requestId], key.snapshot);
      assert IsNewestVerdict(after, key.snapshot, requestId);
    }
    if ApprovedIsNewest(after, key.snapshot) {
      forall id | id in s.approvals && IsUnapproved(s.approvals[id], key.snapshot)
        ensures s.approvals[id].createdAt < now
      {
        assert after[id] == s.approvals[id];
      }
    }
  }

  /** The sign-off, under whichever answer the database gives, ends without an error and with a PDF. */
  ghost predicate SurelyDelivers(s: State, key: ReportKey, reviewer: string, requestId: string, now: int,
                                 rendering: Rendering)
  {
    forall gate :: IsLatestStatus(SignedOff(s, key, reviewer, requestId, now).approvals, key.snapshot, gate) ==>
      var out := ReportApproved(s, key, reviewer, requestId, now, gate, rendering);
      out.error.None? && HasPdf(out.state, key)
  }

  /**
   * A sign-off is sure to deliver exactly when the artifacts exist, no break is open, rendering works and no unapproved
   * request of the snapshot shares its instant.
   */
  lemma ApproveDeliversIff(s: State, key: ReportKey, reviewer: string, requestId: string, now: int,
                           rendering: Rendering)
    requires requestId !in s.approvals && ClockAtLeast(s, now) && !HasPdf(s, key)
    ensures SurelyDelivers(s, key, reviewer, requestId, now, rendering)
       <==> key in s.reports && !AnyOpen(s.breaks) && rendering.Renders? && NoRival(s, key.snapshot, now)
  {
    SignOffOpensGate(s, key, reviewer, requestId, now);
    var signed := SignedOff(s, key, reviewer, requestId, now);
    assert signed.breaks == s.breaks && signed.reports == s.reports;
    var answer := AnswerExists(signed.approvals, key.snapshot);
    hide SignedOff, IsLatestStatus, NoRival, AnyOpen;
    forall gate
      ensures var out := ReportApproved(s, key, reviewer, requestId, now, gate, rendering);
              (out.error.None? && HasPdf(out.state, key))
              <==> (key in s.reports && !AnyOpen(s.breaks) && rendering.Renders? && gate == Some(Approved))
    {
    }
  }

  /** Within its session, even when nothing is delivered, the named approval is on record. */
  lemma SignOffRecorded(s: State, c: Command)
    requires Admissible(s, c) && c.ApproveReport? && c.key in s.reports
    ensures var t := Step(s, c).state;
            && c.requestId in t.approvals && t.approvals[c.requestId].status.Approved?
            && t.approvals[c.requestId].reviewer == Some(c.reviewer) && SignedFor(t.approvals, c.key.snapshot)
  {
    hide TradesFor, IsLatestStatus;
    assert IsRequestFor(Step(s, c).state.approvals[c.requestId], c.key.snapshot);
  }
}
