/** Concrete runs that show where the gates are looser than they look. */
module WorkflowWitnesses {
  import opened Wrappers
  import opened Workflow
  import opened WorkflowInvariants
  import opened WorkflowTheorems
  import opened AuditReplay

  const SALE := Payload(None, "security", "account", "sell", 1.0)

  /** One run extended by a session of one call, and the state it ends in. */
  lemma Extend(states: seq<State>, works: seq<Work>, c: Command)
    requires IsRun(states, works) && Admissible(states[|states| - 1], c)
    ensures IsRun(states + [Step(states[|states| - 1], c).state], works + [Work([c], true)])
  {
    hide Step, Admissible, Empty;
    OneCall(states[|states| - 1], c);
  }

  /** The same, not committed. */
  lemma ExtendRolledBack(states: seq<State>, works: seq<Work>, c: Command)
    requires IsRun(states, works) && Admissible(states[|states| - 1], c)
    ensures var s := states[|states| - 1];
            IsRun(states + [RolledBack(s, Step(s, c).state)], works + [Work([c], false)])
  {
    hide Step, Admissible, Empty;
    OneCall(states[|states| - 1], c);
  }

  lemma Start()
    ensures IsRun([Empty()], [])
  {
  }

  /** A run persisted and requested for approval twice, both requests approved. */
  lemma TwoApprovals() returns (states: seq<State>, works: seq<Work>)
    ensures IsRun(states, works) && |states| > 0
    ensures var s := states[|states| - 1];
            && s.trades == [TradeRow("run", SALE)] && s.orders == [] && s.events == []
            && RunOrders(s.orders, "run") == []
            && "a" in s.approvals && s.approvals["a"].status.Approved? && s.approvals["a"].runId == Some("run")
            && "b" in s.approvals && s.approvals["b"].status.Approved? && s.approvals["b"].runId == Some("run")
  {
    hide IsRun;
    assert "a"[0] != "b"[0] && "a"[0] != "run"[0] && "b"[0] != "run"[0];
    states, works := [Empty()], [];
    Start();
    var c := PersistRun("run", "home", [SALE], Some("a"), "optimizer", 0);
    Extend(states, works, c);
    states, works := states + [Step(states[|states| - 1], c).state], works + [Work([c], true)];
    assert RowsOf("run", [SALE]) == [TradeRow("run", SALE)];
    c := RequestForRun("b", "run", "home", 0);
    Extend(states, works, c);
    states, works := states + [Step(states[|states| - 1], c).state], works + [Work([c], true)];
    c := Decide("a", Approved, "advisor", 0);
    Extend(states, works, c);
    states, works := states + [Step(states[|states| - 1], c).state], works + [Work([c], true)];
    c := Decide("b", Approved, "advisor", 0);
    Extend(states, works, c);
    states, works := states + [Step(states[|states| - 1], c).state], works + [Work([c], true)];
  }

  /** Staging one approval of the run adds its one order. */
  lemma StageOne(s: State, id: string, orderId: string)
    requires s.trades == [TradeRow("run", SALE)]
    requires id in s.approvals && s.approvals[id].status.Approved? && s.approvals[id].runId == Some("run")
    requires forall i :: 0 <= i < |s.orders| ==> s.orders[i].approvalId != id && s.orders[i].orderId != orderId
    ensures TradesFor(s.trades, "run") == [SALE]
    ensures var c := StageOrders(id, "oms", [orderId], 0);
            && Admissible(s, c)
            && var t := Step(s, c).state;
               && t.trades == s.trades && t.approvals == s.approvals && t.events == s.events
               && t.orders == s.orders + [Order(orderId, id, "run", s.approvals[id].household, SALE, Staged, 0, 0)]
               && RunOrders(t.orders, "run") == RunOrders(s.orders, "run") + [SALE]
  {
  }

  /** One trade of one run, ordered twice through two approvals of the run. */
  lemma DoubleStaging() returns (states: seq<State>, works: seq<Work>)
    ensures IsRun(states, works)
    ensures TradesFor(states[|states| - 1].trades, "run") == [SALE]
    ensures RunOrders(states[|states| - 1].orders, "run") == [SALE, SALE]
  {
    hide IsRun, TradesFor, Step, Admissible, RunOrders;
    states, works := TwoApprovals();
    var s := states[|states| - 1];
    assert "a"[0] != "b"[0] && "1"[0] != "2"[0];
    StageOne(s, "a", "1");
    var c := StageOrders("a", "oms", ["1"], 0);
    Extend(states, works, c);
    var t := Step(s, c).state;
    states, works := states + [t], works + [Work([c], true)];
    StageOne(t, "b", "2");
    c := StageOrders("b", "oms", ["2"], 0);
    Extend(states, works, c);
    states, works := states + [Step(t, c).state], works + [Work([c], true)];
  }

  const REPORT := ReportKey("home", "snapshot")

  /** Only the report tables are in use. */
  ghost predicate ReportsOnly(s: State) {
    s.runs == map[] && s.trades == [] && s.orders == [] && s.breaks == map[]
  }

  lemma Build(s: State, c: Command)
    requires s == Empty() && c == BuildReport(REPORT, "writer", None, Renders)
    ensures Admissible(s, c)
    ensures var t := Step(s, c).state; ReportsOnly(t) && t.approvals == map[] && t.reports == map[REPORT := false]
  {
  }

  lemma SignOff(s: State, c: Command)
    requires ReportsOnly(s) && s.approvals == map[] && s.reports == map[REPORT := false]
    requires c == ApproveReport(REPORT, "advisor", "a", 0, Some(Approved), Renders)
    ensures Admissible(s, c)
    ensures var t := Step(s, c).state;
            && ReportsOnly(t) && t.reports == map[REPORT := true] && t.approvals.Keys == {"a"}
            && t.approvals["a"]
                 == Approval(ReportSnapshot, "snapshot", None, "home", Approved, Some("advisor"), 0, Some(0))
  {
    var signed := SignedOff(s, REPORT, "advisor", "a", 0);
    assert IsRequestFor(signed.approvals["a"], "snapshot");
    assert "a"[0] != "snapshot"[0];
    assert Fresh(s, "a");
  }

  lemma AskAgain(s: State, c: Command)
    requires ReportsOnly(s) && s.reports == map[REPORT := true] && s.approvals.Keys == {"a"}
    requires s.approvals["a"]
            == Approval(ReportSnapshot, "snapshot", None, "home", Approved, Some("advisor"), 0, Some(0))
    requires c == RequestForReport("b", "snapshot", "home", 1)
    ensures Admissible(s, c)
    ensures var t := Step(s, c).state;
            && t.reports == s.reports && t.approvals.Keys == {"a", "b"} && t.approvals["a"] == s.approvals["a"]
            && t.approvals["b"] == Approval(ReportSnapshot, "snapshot", None, "home", Pending, None, 1, None)
  {
    assert "a"[0] != "b"[0] && "b"[0] != "snapshot"[0];
  }

  lemma Reject(s: State, c: Command)
    requires s.reports == map[REPORT := true] && s.approvals.Keys == {"a", "b"}
    requires s.approvals["a"].createdAt == 0
    requires s.approvals["b"] == Approval(ReportSnapshot, "snapshot", None, "home", Pending, None, 1, None)
    requires c == Decide("b", Rejected, "advisor", 2)
    ensures Admissible(s, c)
    ensures HasPdf(Step(s, c).state, REPORT) && IsLatestStatus(Step(s, c).state.approvals, "snapshot", Some(Rejected))
  {
    assert "a"[0] != "b"[0];
    assert IsRequestFor(Step(s, c).state.approvals["b"], "snapshot");
  }

  /** A delivered PDF whose snapshot's newest request was rejected afterwards. */
  lemma PdfOutlivesRejection() returns (states: seq<State>, works: seq<Work>)
    ensures IsRun(states, works)
    ensures HasPdf(states[|states| - 1], REPORT)
    ensures IsLatestStatus(states[|states| - 1].approvals, "snapshot", Some(Rejected))
  {
    hide IsRun, Step, Admissible, ReportsOnly, HasPdf, IsLatestStatus;
    Start();
    var c := BuildReport(REPORT, "writer", None, Renders);
    Build(Empty(), c);
    Extend([Empty()], [], c);
    var s := Step(Empty(), c).state;
    states, works := [Empty()] + [s], [] + [Work([c], true)];
    c := ApproveReport(REPORT, "advisor", "a", 0, Some(Approved), Renders);
    SignOff(s, c);
    Extend(states, works, c);
    s := Step(s, c).state;
    states, works := states + [s], works + [Work([c], true)];
    c := RequestForReport("b", "snapshot", "home", 1);
    AskAgain(s, c);
    Extend(states, works, c);
    s := Step(s, c).state;
    states, works := states + [s], works + [Work([c], true)];
    c := Decide("b", Rejected, "advisor", 2);
    Reject(s, c);
    Extend(states, works, c);
    states, works := states + [Step(s, c).state], works + [Work([c], true)];
  }

  lemma AskFirst(s: State, c: Command)
    requires ReportsOnly(s) && s.approvals == map[] && s.reports == map[REPORT := false]
    requires c == RequestForReport("b", "snapshot", "home", 0)
    ensures Admissible(s, c)
    ensures var t := Step(s, c).state;
            && ReportsOnly(t) && t.reports == s.reports && t.approvals.Keys == {"b"}
            && t.approvals["b"] == Approval(ReportSnapshot, "snapshot", None, "home", Pending, None, 0, None)
  {
    assert "b"[0] != "snapshot"[0];
  }

  lemma SignOffInVain(s: State, c: Command)
    requires ReportsOnly(s) && s.reports == map[REPORT := false] && s.approvals.Keys == {"b"}
    requires s.approvals["b"] == Approval(ReportSnapshot, "snapshot", None, "home", Pending, None, 0, None)
    requires c == ApproveReport(REPORT, "advisor", "a", 0, Some(Pending), Renders)
    ensures Admissible(s, c)
    ensures var t := Step(s, c).state; !HasPdf(t, REPORT) && SignedFor(t.approvals, "snapshot") && !AnyOpen(t.breaks)
  {
    assert "a"[0] != "b"[0] && "a"[0] != "snapshot"[0];
    var signed := SignedOff(s, REPORT, "advisor", "a", 0).approvals;
    assert signed["b"] == s.approvals["b"] && IsRequestFor(signed["b"], "snapshot");
    assert IsRequestFor(signed["a"], "snapshot");
    assert IsLatestStatus(signed, "snapshot", Some(Pending));
    assert Step(s, c).state.approvals["a"] == signed["a"];
  }

  /** A sign-off in the instant of another request: approved on record, nothing blocking, and still no PDF. */
  lemma RivalBlocksDelivery() returns (states: seq<State>, works: seq<Work>)
    ensures IsRun(states, works) && |works| > 0
    ensures works[|works| - 1] == Work([ApproveReport(REPORT, "advisor", "a", 0, Some(Pending), Renders)], true)
    ensures var s := states[|states| - 1];
            !HasPdf(s, REPORT) && SignedFor(s.approvals, "snapshot") && !AnyOpen(s.breaks)
  {
    hide IsRun, Step, Admissible, ReportsOnly, HasPdf, SignedFor, AnyOpen;
    Start();
    var c := BuildReport(REPORT, "writer", None, Renders);
    Build(Empty(), c);
    Extend([Empty()], [], c);
    var s := Step(Empty(), c).state;
    states, works := [Empty()] + [s], [] + [Work([c], true)];
    c := RequestForReport("b", "snapshot", "home", 0);
    AskFirst(s, c);
    Extend(states, works, c);
    s := Step(s, c).state;
    states, works := states + [s], works + [Work([c], true)];
    c := ApproveReport(REPORT, "advisor", "a", 0, Some(Pending), Renders);
    SignOffInVain(s, c);
    Extend(states, works, c);
    states, works := states + [Step(s, c).state], works + [Work([c], true)];
  }

  lemma SignOffBreaks(s: State, c: Command)
    requires ReportsOnly(s) && s.approvals == map[] && s.reports == map[REPORT := false]
    requires c == ApproveReport(REPORT, "advisor", "a", 0, Some(Approved), Breaks(true))
    ensures Admissible(s, c) && Step(s, c).error == Some(RenderFailed)
    ensures HasPdf(Step(s, c).state, REPORT)
  {
    var signed := SignedOff(s, REPORT, "advisor", "a", 0);
    assert IsRequestFor(signed.approvals["a"], "snapshot");
    assert "a"[0] != "snapshot"[0];
    assert Fresh(s, "a");
  }

  /** A rendering that fails and leaves a file: the sign-off is rolled back, and the PDF has no approval at all. */
  lemma UnsignedPdf() returns (states: seq<State>, works: seq<Work>)
    ensures IsRun(states, works) && |works| > 0
    ensures works[|works| - 1]
            == Work([ApproveReport(REPORT, "advisor", "a", 0, Some(Approved), Breaks(true))], false)
    ensures var s := states[|states| - 1];
            HasPdf(s, REPORT) && s.approvals == map[] && !SignedFor(s.approvals, "snapshot") && !PdfsSigned(s)
  {
    hide IsRun, Step, Admissible, ReportsOnly;
    Start();
    var c := BuildReport(REPORT, "writer", None, Renders);
    Build(Empty(), c);
    Extend([Empty()], [], c);
    var s := Step(Empty(), c).state;
    states, works := [Empty()] + [s], [] + [Work([c], true)];
    c := ApproveReport(REPORT, "advisor", "a", 0, Some(Approved), Breaks(true));
    SignOffBreaks(s, c);
    ExtendRolledBack(states, works, c);
    states, works := states + [RolledBack(s, Step(s, c).state)], works + [Work([c], false)];
  }

  /** Two moves of one staged order. */
  lemma Advance(s: State, c: Command)
    requires |s.orders| == 1 && s.orders[0].orderId == "1" && s.events == []
    requires (s.orders[0].status == Staged && c == MoveOrder("1", Submitted, "oms", 0))
          || (s.orders[0].status == Submitted && c == MoveOrder("1", Filled, "oms", 0))
    ensures Admissible(s, c)
    ensures var t := Step(s, c).state;
            && |t.orders| == 1 && t.orders[0].orderId == "1" && t.orders[0].status == c.orderStatus
            && Fills(t.events, "1") == (if c.orderStatus.Filled? then 1 else 0)
            && (c.orderStatus.Submitted? ==> t.events == [])
  {
    assert s.orders[..0] == [];
    assert IndexOf(s.orders, "1") == 0;
  }

  /** A fill that is rolled back: the order is not filled, and its fill event is on record. */
  lemma FillRolledBack() returns (states: seq<State>, works: seq<Work>)
    ensures IsRun(states, works)
    ensures var s := states[|states| - 1];
            |s.orders| == 1 && s.orders[0].status == Submitted && Fills(s.events, s.orders[0].orderId) == 1
  {
    hide IsRun, TradesFor, Step, Admissible, RunOrders, Fills;
    states, works := TwoApprovals();
    var s := states[|states| - 1];
    StageOne(s, "a", "1");
    var c := StageOrders("a", "oms", ["1"], 0);
    Extend(states, works, c);
    var t := Step(s, c).state;
    states, works := states + [t], works + [Work([c], true)];
    c := MoveOrder("1", Submitted, "oms", 0);
    Advance(t, c);
    Extend(states, works, c);
    t := Step(t, c).state;
    states, works := states + [t], works + [Work([c], true)];
    c := MoveOrder("1", Filled, "oms", 0);
    Advance(t, c);
    ExtendRolledBack(states, works, c);
    states, works := states + [RolledBack(t, Step(t, c).state)], works + [Work([c], false)];
  }

  /** The PDF command asks no gate: a PDF of a report that nobody was ever asked to approve. */
  lemma UngatedPdf() returns (states: seq<State>, works: seq<Work>)
    ensures IsRun(states, works) && |works| == 2 && works[1] == PdfCommand(REPORT, Renders)
    ensures var s := states[|states| - 1]; HasPdf(s, REPORT) && s.approvals == map[] && !PdfsSigned(s)
  {
    hide Step, Admissible, ReportsOnly;
    Start();
    var c := BuildReport(REPORT, "writer", None, Renders);
    Build(Empty(), c);
    Extend([Empty()], [], c);
    var s := Step(Empty(), c).state;
    states, works := [Empty()] + [s], [] + [Work([c], true)];
    states, works := states + [Rendered(s, REPORT, Renders)], works + [PdfCommand(REPORT, Renders)];
  }
}
