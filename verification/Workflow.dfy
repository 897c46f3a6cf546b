/**
 * Approval, order staging, execution and report sign-off: the rows, every service function as a step on them, and
 * database sessions that commit or roll back (decision/approval, execution/oms, decision/optimizer/runner.py,
 * reporting/report_writer/writer.py, infra/db/base.py).
 * Fresh uuids, the clock, the renderer and the order in which the database returns ties are inputs of a step.
 */
module Workflow {
  import opened Wrappers

  datatype ApprovalStatus = Pending | Approved | Rejected

  datatype Subject = OptimizationRun | ReportSnapshot

  datatype Approval = Approval(
    subject: Subject,
    subjectId: string,
    runId: Option<string>,
    household: string,
    status: ApprovalStatus,
    reviewer: Option<string>,
    createdAt: int,
    reviewedAt: Option<int>)

  datatype Payload = Payload(lotId: Option<string>, securityId: string, accountId: string, side: string, quantity: real)

  datatype TradeRow = TradeRow(runId: string, payload: Payload)

  datatype OrderStatus = Staged | Submitted | Filled | Cancelled

  datatype Order = Order(
    orderId: string,
    approvalId: string,
    runId: string,
    household: string,
    payload: Payload,
    status: OrderStatus,
    createdAt: int,
    updatedAt: int)

  /** Where a report's artifacts lie. */
  datatype ReportKey = ReportKey(household: string, snapshot: string)

  /** What became of the external PDF. */
  datatype Delivery = Delivered | OpenBreaks | AwaitingApproval | RenderError

  datatype Action =
    | OptimizationComplete(trades: nat)
    | ApprovalRequested
    | ApprovalDecided(approvalStatus: ApprovalStatus)
    | OrdersStaged(orders: nat)
    | OrderMoved(orderStatus: OrderStatus)
    | BreakOpened
    | ReportBuilt(built: Delivery)
    | ReportSignedOff(signedOff: Delivery)

  datatype Entry = Entry(actor: string, action: Action, resource: string, household: string)

  /** The order.filled event; the correlation id is the order's approval request. */
  datatype OrderFilled = OrderFilled(household: string, orderId: string, correlationId: string)

  datatype State = State(
    runs: map<string, string>, // run id to household
    trades: seq<TradeRow>,
    approvals: map<string, Approval>,
    orders: seq<Order>,
    breaks: map<string, bool>, // break id to resolved
    reports: map<ReportKey, bool>, // whether external.pdf exists
    audit: seq<Entry>,
    events: seq<OrderFilled>)

  datatype Error =
    | ApprovalNotFound
    | AlreadyDecided
    | NotApproved
    | NotAnOptimization
    | OrderNotFound
    | IllegalTransition
    | NoArtifacts
    | RenderFailed

  /** The rows after a step, and the exception it raised, if any. */
  datatype Outcome = Outcome(state: State, error: Option<Error>)

  function Empty(): State {
    State(map[], [], map[], [], map[], map[], [], [])
  }

  function Audited(s: State, entry: Entry): State {
    s.(audit := s.audit + [entry])
  }

  // ----- runs and approvals

  function Requested(s: State, requestId: string, subject: Subject, subjectId: string, runId: Option<string>,
                     household: string, now: int): State
  {
    var row := Approval(subject, subjectId, runId, household, Pending, None, now, None);
    Audited(s.(approvals := s.approvals[requestId := row]),
            Entry("system:approval", ApprovalRequested, requestId, household))
  }

  function RowsOf(runId: string, payloads: seq<Payload>): (rows: seq<TradeRow>)
    ensures |rows| == |payloads|
  {
    seq(|payloads|, i requires 0 <= i < |payloads| => TradeRow(runId, payloads[i]))
  }

  function Persisted(s: State, runId: string, household: string, payloads: seq<Payload>, actor: string): State {
    Audited(s.(runs := s.runs[runId := household], trades := s.trades + RowsOf(runId, payloads)),
            Entry(actor, OptimizationComplete(|payloads|), runId, household))
  }

  function DecidedRow(row: Approval, status: ApprovalStatus, reviewer: string, now: int): Approval {
    row.(status := status, reviewer := Some(reviewer), reviewedAt := Some(now))
  }

  function Decided(s: State, requestId: string, status: ApprovalStatus, reviewer: string, now: int): Outcome {
    if requestId !in s.approvals then Outcome(s, Some(ApprovalNotFound))
    else if !s.approvals[requestId].status.Pending? then Outcome(s, Some(AlreadyDecided))
    else
      var row := s.approvals[requestId];
      Outcome(Audited(s.(approvals := s.approvals[requestId := DecidedRow(row, status, reviewer, now)]),
                      Entry(reviewer, ApprovalDecided(status), requestId, row.household)), None)
  }

  // ----- orders

  /** What a run proposes, in the order of its rows. */
  function TradesFor(trades: seq<TradeRow>, runId: string): seq<Payload> {
    if |trades| == 0 then []
    else
      var last := trades[|trades| - 1];
      TradesFor(trades[..|trades| - 1], runId) + if last.runId == runId then [last.payload] else []
  }

  /** What the orders of one approval ask for, in the order of their rows. */
  function OrdersFor(orders: seq<Order>, approvalId: string): seq<Payload> {
    if |orders| == 0 then []
    else
      var last := orders[|orders| - 1];
      OrdersFor(orders[..|orders| - 1], approvalId) + if last.approvalId == approvalId then [last.payload] else []
  }

  predicate HasOrders(orders: seq<Order>, approvalId: string) {
    exists i :: 0 <= i < |orders| && orders[i].approvalId == approvalId
  }

  function NewOrders(approvalId: string, runId: string, household: string, payloads: seq<Payload>, ids: seq<string>,
                     now: int): (o: seq<Order>)
    requires |payloads| <= |ids|
    ensures |o| == |payloads|
  {
    seq(|payloads|, i requires 0 <= i < |payloads| =>
      Order(ids[i], approvalId, runId, household, payloads[i], Staged, now, now))
  }

  function StagedFrom(s: State, approvalId: string, actor: string, ids: seq<string>, now: int): Outcome
    requires approvalId in s.approvals && s.approvals[approvalId].runId.Some? ==>
               |TradesFor(s.trades, s.approvals[approvalId].runId.value)| <= |ids|
  {
    if approvalId !in s.approvals then Outcome(s, Some(ApprovalNotFound))
    else
      var approval := s.approvals[approvalId];
      if !approval.status.Approved? then Outcome(s, Some(NotApproved))
      else if approval.runId.None? then Outcome(s, Some(NotAnOptimization))
      else if HasOrders(s.orders, approvalId) then Outcome(s, None)
      else
        var payloads := TradesFor(s.trades, approval.runId.value);
        var orders := NewOrders(approvalId, approval.runId.value, approval.household, payloads, ids, now);
        Outcome(Audited(s.(orders := s.orders + orders),
                        Entry(actor, OrdersStaged(|payloads|), approvalId, approval.household)), None)
  }

  function Allowed(from: OrderStatus): set<OrderStatus> {
    match from
    case Staged => {Submitted, Cancelled}
    case Submitted => {Filled, Cancelled}
    case Filled => {}
    case Cancelled => {Cancelled}
  }

  /** The row with an order id, or the number of rows when there is none. */
  function IndexOf(orders: seq<Order>, orderId: string): (i: nat)
    ensures i <= |orders|
    ensures i < |orders| ==> orders[i].orderId == orderId
    ensures i == |orders| <==> forall k :: 0 <= k < |orders| ==> orders[k].orderId != orderId
  {
    if |orders| == 0 then 0
    else
      var n := |orders| - 1;
      var i := IndexOf(orders[..n], orderId);
      if i < n then i
      else if orders[n].orderId == orderId then n
      else |orders|
  }

  function Moved(s: State, orderId: string, status: OrderStatus, actor: string, now: int): Outcome {
    var i := IndexOf(s.orders, orderId);
    if i == |s.orders| then Outcome(s, Some(OrderNotFound))
    else if s.orders[i].status == status then
      Outcome(s, if status.Cancelled? then None else Some(IllegalTransition))
    else if status !in Allowed(s.orders[i].status) then Outcome(s, Some(IllegalTransition))
    else
      var row := s.orders[i];
      var logged := Audited(s.(orders := s.orders[i := row.(status := status, updatedAt := now)]),
                            Entry(actor, OrderMoved(status), orderId, row.household));
      var filled := OrderFilled(row.household, orderId, row.approvalId);
      Outcome(if status.Filled? then logged.(events := logged.events + [filled])
              else logged, None)
  }

  // ----- reports

  predicate IsRequestFor(row: Approval, snapshot: string) {
    row.subject.ReportSnapshot? && row.subjectId == snapshot
  }

  /** An answer the database may give for the newest request's status; rows created at one instant tie. */
  ghost predicate IsLatestStatus(approvals: map<string, Approval>, snapshot: string, answer: Option<ApprovalStatus>) {
    if answer.None? then forall id :: id in approvals ==> !IsRequestFor(approvals[id], snapshot)
    else
      exists id ::
        && id in approvals && IsRequestFor(approvals[id], snapshot) && approvals[id].status == answer.value
        && forall other :: other in approvals && IsRequestFor(approvals[other], snapshot) ==>
             approvals[other].createdAt <= approvals[id].createdAt
  }

  predicate AnyOpen(breaks: map<string, bool>) {
    exists b :: b in breaks && !breaks[b]
  }

  /** How rendering would go; a failure may leave a file behind. */
  datatype Rendering = Renders | Breaks(fileLeft: bool)

  function DeliveryOf(s: State, gate: Option<ApprovalStatus>, rendering: Rendering): Delivery {
    if AnyOpen(s.breaks) then OpenBreaks
    else if gate != Some(Approved) then AwaitingApproval
    else if rendering.Renders? then Delivered
    else RenderError
  }

  function HasPdf(s: State, key: ReportKey): bool {
    key in s.reports && s.reports[key]
  }

  function WithPdf(s: State, key: ReportKey, delivery: Delivery, rendering: Rendering): State {
    var written := delivery.Delivered? || (delivery.RenderError? && rendering.Breaks? && rendering.fileLeft);
    s.(reports := s.reports[key := HasPdf(s, key) || written])
  }

  function Built(s: State, key: ReportKey, actor: string, gate: Option<ApprovalStatus>, rendering: Rendering): Outcome {
    var delivery := DeliveryOf(s, gate, rendering);
    var written := WithPdf(s, key, delivery, rendering);
    if delivery.RenderError? then Outcome(written, Some(RenderFailed))
    else Outcome(Audited(written, Entry(actor, ReportBuilt(delivery), key.snapshot, key.household)), None)
  }

  /** The rows once the sign-off is recorded and before the PDF is attempted. */
  function SignedOff(s: State, key: ReportKey, reviewer: string, requestId: string, now: int): State {
    Decided(Requested(s, requestId, ReportSnapshot, key.snapshot, None, key.household, now), requestId, Approved,
            reviewer, now).state
  }

  function ReportApproved(s: State, key: ReportKey, reviewer: string, requestId: string, now: int,
                          gate: Option<ApprovalStatus>, rendering: Rendering): Outcome
  {
    if key !in s.reports then Outcome(s, Some(NoArtifacts))
    else
      var signed := SignedOff(s, key, reviewer, requestId, now);
      var delivery := DeliveryOf(signed, gate, rendering);
      var written := WithPdf(signed, key, delivery, rendering);
      if delivery.RenderError? then Outcome(written, Some(RenderFailed))
      else Outcome(Audited(written, Entry(reviewer, ReportSignedOff(delivery), key.snapshot, key.household)), None)
  }

  function BreakAdded(s: State, breakId: string, actor: string, household: string): State {
    Audited(s.(breaks := s.breaks[breakId := false]), Entry(actor, BreakOpened, breakId, household))
  }

  // ----- the whole system

  datatype Command =
    | PersistRun(runId: string, household: string, payloads: seq<Payload>, queued: Option<string>, actor: string,
                 now: int)
    | RequestForRun(requestId: string, runId: string, household: string, now: int)
    | RequestForReport(requestId: string, snapshot: string, household: string, now: int)
    | Decide(requestId: string, decision: ApprovalStatus, reviewer: string, now: int)
    | StageOrders(approvalId: string, actor: string, ids: seq<string>, now: int)
    | MoveOrder(orderId: string, orderStatus: OrderStatus, actor: string, now: int)
    | OpenBreak(breakId: string, actor: string, household: string)
    | ResolveBreak(breakId: string)
    | BuildReport(key: ReportKey, actor: string, gate: Option<ApprovalStatus>, rendering: Rendering)
    | ApproveReport(key: ReportKey, reviewer: string, requestId: string, now: int, gate: Option<ApprovalStatus>,
                    rendering: Rendering)

  /** A uuid no row carries or mentions. */
  ghost predicate Fresh(s: State, id: string) {
    && id !in s.runs && id !in s.approvals
    && (forall a :: a in s.approvals ==> s.approvals[a].runId != Some(id) && s.approvals[a].subjectId != id)
    && (forall i :: 0 <= i < |s.trades| ==> s.trades[i].runId != id)
    && (forall i :: 0 <= i < |s.orders| ==> s.orders[i].approvalId != id)
    && (forall k :: k in s.reports ==> k.snapshot != id)
  }

  ghost predicate FreshOrderIds(s: State, ids: seq<string>) {
    && (forall i, j :: 0 <= i < j < |ids| ==> ids[i] != ids[j])
    && (forall i, k :: 0 <= i < |ids| && 0 <= k < |s.orders| ==> ids[i] != s.orders[k].orderId)
  }

  /** The uuids drawn are fresh, and the query for the newest request was answered truly. */
  ghost predicate Admissible(s: State, c: Command) {
    match c
    case PersistRun(runId, _, _, queued, _, _) =>
      Fresh(s, runId) && (queued.Some? ==> Fresh(s, queued.value) && queued.value != runId)
    case RequestForRun(requestId, _, _, _) => Fresh(s, requestId)
    case RequestForReport(requestId, _, _, _) => Fresh(s, requestId)
    case Decide(_, _, _, _) => true
    case StageOrders(approvalId, _, ids, _) =>
      && FreshOrderIds(s, ids)
      && (approvalId in s.approvals && s.approvals[approvalId].runId.Some? ==>
            |TradesFor(s.trades, s.approvals[approvalId].runId.value)| <= |ids|)
    case MoveOrder(_, _, _, _) => true
    case OpenBreak(_, _, _) => true
    case ResolveBreak(_) => true
    case BuildReport(key, _, gate, _) => Fresh(s, key.snapshot) && IsLatestStatus(s.approvals, key.snapshot, gate)
    case ApproveReport(key, reviewer, requestId, now, gate, _) =>
      Fresh(s, requestId) && IsLatestStatus(SignedOff(s, key, reviewer, requestId, now).approvals, key.snapshot, gate)
  }

  /** One service call; a call that raises leaves the rows it has already changed. */
  ghost function Step(s: State, c: Command): Outcome
    requires Admissible(s, c)
  {
    match c
    case PersistRun(runId, household, payloads, queued, actor, now) =>
      var run := Persisted(s, runId, household, payloads, actor);
      Outcome(if queued.Some? then Requested(run, queued.value, OptimizationRun, runId, Some(runId), household, now)
              else run, None)
    case RequestForRun(requestId, runId, household, now) =>
      Outcome(Requested(s, requestId, OptimizationRun, runId, Some(runId), household, now), None)
    case RequestForReport(requestId, snapshot, household, now) =>
      Outcome(Requested(s, requestId, ReportSnapshot, snapshot, None, household, now), None)
    case Decide(requestId, decision, reviewer, now) => Decided(s, requestId, decision, reviewer, now)
    case StageOrders(approvalId, actor, ids, now) => StagedFrom(s, approvalId, actor, ids, now)
    case MoveOrder(orderId, status, actor, now) => Moved(s, orderId, status, actor, now)
    case OpenBreak(breakId, actor, household) => Outcome(BreakAdded(s, breakId, actor, household), None)
    case ResolveBreak(breakId) =>
      Outcome(if breakId in s.breaks then s.(breaks := s.breaks[breakId := true]) else s, None)
    case BuildReport(key, actor, gate, rendering) => Built(s, key, actor, gate, rendering)
    case ApproveReport(key, reviewer, requestId, now, gate, rendering) =>
      ReportApproved(s, key, reviewer, requestId, now, gate, rendering)
  }

  // ----- database sessions

  /** A session that is not committed: its rows are gone, its files and its events are not. */
  function RolledBack(s: State, t: State): State {
    s.(reports := t.reports, events := t.events)
  }

  /**
   * One piece of work: the calls of a database session and how it ends, a session that raises not being committed; or
   * the command that renders a report's PDF again, which opens no session and asks no gate.
   */
  datatype Work =
    | Work(calls: seq<Command>, commits: bool)
    | PdfCommand(key: ReportKey, rendering: Rendering)

  ghost predicate AllAdmissible(s: State, calls: seq<Command>)
    decreases |calls|
  {
    |calls| > 0 ==> Admissible(s, calls[0]) && AllAdmissible(Step(s, calls[0]).state, calls[1..])
  }

  /** What the calls of an open session see at its end. */
  ghost function After(s: State, calls: seq<Command>): State
    requires AllAdmissible(s, calls)
    decreases |calls|
  {
    if |calls| == 0 then s else After(Step(s, calls[0]).state, calls[1..])
  }

  lemma OneCall(s: State, c: Command)
    requires Admissible(s, c)
    ensures AllAdmissible(s, [c]) && After(s, [c]) == Step(s, c).state
  {
    hide Step, Admissible;
    var t := Step(s, c).state;
    assert [c][1..] == [] && AllAdmissible(t, []) && After(t, []) == t;
  }

  /** Rendering needs the artifacts, and a failure may leave a file behind. */
  predicate LeavesFile(s: State, key: ReportKey, rendering: Rendering) {
    key in s.reports && rendering != Breaks(false)
  }

  function Rendered(s: State, key: ReportKey, rendering: Rendering): State {
    if LeavesFile(s, key, rendering) then s.(reports := s.reports[key := true]) else s
  }

  ghost predicate Admits(s: State, work: Work) {
    work.Work? ==> AllAdmissible(s, work.calls)
  }

  ghost function End(s: State, work: Work): State
    requires Admits(s, work)
  {
    match work
    case Work(calls, commits) => if commits then After(s, calls) else RolledBack(s, After(s, calls))
    case PdfCommand(key, rendering) => Rendered(s, key, rendering)
  }

  /** A run of the system from empty tables, one piece of work after another. */
  ghost predicate IsRun(states: seq<State>, works: seq<Work>) {
    && |states| == |works| + 1 && states[0] == Empty()
    && forall i :: 0 <= i < |works| ==>
         Admits(states[i], works[i]) && states[i + 1] == End(states[i], works[i])
  }
}
