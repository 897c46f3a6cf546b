/**
 * What lies outside the transaction: a session that is not committed undoes its rows and leaves the PDF of its
 * sign-off, and one command renders a PDF without any gate (cli.py, infra/db/base.py, reporting/report_writer/pdf.py).
 */
module Rollbacks {
  import opened Wrappers
  import opened Workflow
  import opened WorkflowSafety
  import opened WorkflowInvariants

  // ----- which calls leave a PDF

  /** A sign-off after which its report has a PDF. */
  ghost predicate LeavesPdf(s: State, c: Command)
    requires Admissible(s, c)
  {
    c.ApproveReport? && HasPdf(Step(s, c).state, c.key)
  }

  /** What a caller can see of it beforehand. */
  lemma LeavesPdfIff(s: State, c: Command)
    requires Admissible(s, c) && c.ApproveReport?
    ensures LeavesPdf(s, c)
       <==> HasPdf(s, c.key)
            || (c.key in s.reports && !AnyOpen(s.breaks) && c.gate == Some(Approved) && c.rendering != Breaks(false))
  {
    hide Fresh, IsLatestStatus, AnyOpen;
  }

  lemma BuildLeavesNoPdf(s: State, c: Command)
    requires Admissible(s, c) && c.BuildReport?
    ensures Step(s, c).state.reports == s.reports[c.key := false] && c.key !in s.reports
  {
    hide AnyOpen;
    assert c.gate == None;
  }

  lemma OthersKeepReports(s: State, c: Command)
    requires Admissible(s, c) && !c.BuildReport? && !c.ApproveReport?
    ensures Step(s, c).state.reports == s.reports
  {
    hide TradesFor, IndexOf, HasOrders, Allowed, FreshOrderIds, Fresh;
  }

  lemma SignOffTouchesOne(s: State, c: Command, key: ReportKey)
    requires Admissible(s, c) && c.ApproveReport?
    ensures HasPdf(Step(s, c).state, key) <==> HasPdf(s, key) || (LeavesPdf(s, c) && c.key == key)
  {
    hide Fresh, IsLatestStatus, AnyOpen;
  }

  /** Only sign-offs leave a PDF: a build is of a new snapshot, which nobody can have approved. */
  lemma StepPdfs(s: State, c: Command, key: ReportKey)
    requires Admissible(s, c)
    ensures HasPdf(Step(s, c).state, key) <==> HasPdf(s, key) || (LeavesPdf(s, c) && c.key == key)
  {
    hide Step, Admissible;
    if c.ApproveReport? {
      SignOffTouchesOne(s, c, key);
    } else if c.BuildReport? {
      BuildLeavesNoPdf(s, c);
    } else {
      OthersKeepReports(s, c);
    }
  }

  /** Some call of the session is a sign-off that leaves a PDF of the report. */
  ghost predicate Leaves(s: State, calls: seq<Command>, key: ReportKey)
    requires AllAdmissible(s, calls)
    decreases |calls|
  {
    |calls| > 0 && ((LeavesPdf(s, calls[0]) && calls[0].key == key) || Leaves(Step(s, calls[0]).state, calls[1..], key))
  }

  lemma {:induction false} AfterPdfs(s: State, calls: seq<Command>, key: ReportKey)
    requires AllAdmissible(s, calls)
    ensures HasPdf(After(s, calls), key) <==> HasPdf(s, key) || Leaves(s, calls, key)
    decreases |calls|
  {
    hide Step, Admissible, HasPdf, LeavesPdf;
    if |calls| > 0 {
      StepPdfs(s, calls[0], key);
      AfterPdfs(Step(s, calls[0]).state, calls[1..], key);
    }
  }

  // ----- committed calls keep the promise

  lemma SignedStays(s: State, t: State, snapshot: string)
    requires ApprovalsGrow(s.approvals, t.approvals) && SignedFor(s.approvals, snapshot)
    ensures SignedFor(t.approvals, snapshot)
  {
    var id :| id in s.approvals && IsRequestFor(s.approvals[id], snapshot)
              && s.approvals[id].status.Approved? && s.approvals[id].reviewer.Some?;
    assert ApprovalKept(s.approvals[id], t.approvals[id]);
  }

  lemma LeftIsSigned(s: State, c: Command)
    requires RowsSafe(s) && Admissible(s, c) && LeavesPdf(s, c) && KeySigned(s, c.key)
    ensures SignedFor(Step(s, c).state.approvals, c.key.snapshot)
  {
    StepEvolves(s, c);
    StepRowsSafe(s, c);
    LeavesPdfIff(s, c);
    var t := Step(s, c).state;
    hide RowsSafe, Step, Evolves;
    if HasPdf(s, c.key) {
      assert ApprovalsGrow(s.approvals, t.approvals) by { EvolvesApprovals(s, t); }
      SignedStays(s, t, c.key.snapshot);
    } else {
      StepApprovals(s, c);
      GateIsSigned(t.approvals, c.key.snapshot) by { RowsSafeTyped(t); }
    }
  }

  lemma EvolvesApprovals(s: State, t: State)
    requires Evolves(s, t)
    ensures ApprovalsGrow(s.approvals, t.approvals)
  {
  }

  lemma RowsSafeTyped(s: State)
    requires RowsSafe(s)
    ensures Typed(s.approvals)
  {
  }

  lemma StepApprovals(s: State, c: Command)
    requires Admissible(s, c) && c.ApproveReport? && c.key in s.reports && c.gate == Some(Approved)
    ensures IsLatestStatus(Step(s, c).state.approvals, c.key.snapshot, Some(Approved))
  {
    hide IsLatestStatus, Fresh, AnyOpen;
  }

  lemma GateIsSigned(approvals: map<string, Approval>, snapshot: string)
    requires Typed(approvals) && IsLatestStatus(approvals, snapshot, Some(Approved))
    ensures SignedFor(approvals, snapshot)
  {
  }

  lemma StepSigned(s: State, c: Command, key: ReportKey)
    requires RowsSafe(s) && Admissible(s, c) && KeySigned(s, key)
    ensures KeySigned(Step(s, c).state, key)
  {
    hide RowsSafe, Step, Evolves, SignedFor, HasPdf;
    var t := Step(s, c).state;
    StepPdfs(s, c, key);
    if HasPdf(t, key) {
      if LeavesPdf(s, c) && c.key == key {
        LeftIsSigned(s, c);
      } else {
        StepEvolves(s, c);
        EvolvesApprovals(s, t);
        SignedStays(s, t, key.snapshot);
      }
    }
  }

  lemma {:induction false} AfterSigned(s: State, calls: seq<Command>, key: ReportKey)
    requires RowsSafe(s) && AllAdmissible(s, calls) && KeySigned(s, key)
    ensures KeySigned(After(s, calls), key)
    decreases |calls|
  {
    hide RowsSafe, Step, KeySigned, Admissible;
    if |calls| > 0 {
      StepSigned(s, calls[0], key);
      StepRowsSafe(s, calls[0]);
      AfterSigned(Step(s, calls[0]).state, calls[1..], key);
    }
  }

  // ----- sessions

  /** A PDF of the report is left behind outside a committed session. */
  ghost predicate LeavesUngated(s: State, work: Work, key: ReportKey)
    requires Admits(s, work)
  {
    match work
    case Work(calls, commits) => !commits && Leaves(s, calls, key)
    case PdfCommand(k, rendering) => k == key && LeavesFile(s, key, rendering)
  }

  /** Such a PDF is left only when its snapshot is signed already. */
  ghost predicate Covered(s: State, work: Work, key: ReportKey)
    requires Admits(s, work)
  {
    LeavesUngated(s, work, key) ==> SignedFor(s.approvals, key.snapshot)
  }

  /** A piece of work keeps a report's PDF signed exactly when any PDF of it left ungated was signed before. */
  lemma EndSignedIff(s: State, work: Work, key: ReportKey)
    requires RowsSafe(s) && Admits(s, work) && KeySigned(s, key)
    ensures KeySigned(End(s, work), key) <==> Covered(s, work, key)
  {
    hide RowsSafe, After, AllAdmissible, SignedFor, Leaves;
    if work.Work? {
      AfterPdfs(s, work.calls, key);
      AfterSigned(s, work.calls, key);
    }
  }

  /**
   * In every run: a report's PDF has at all times a named approval of its snapshot if and only if no session that was
   * rolled back, and no PDF command, left that PDF while the snapshot was unsigned.
   */
  lemma PdfSignedIff(states: seq<State>, works: seq<Work>, key: ReportKey)
    requires IsRun(states, works)
    ensures (forall i :: 0 <= i < |states| ==> KeySigned(states[i], key))
       <==> (forall i :: 0 <= i < |works| ==> Covered(states[i], works[i], key))
  {
    hide End, KeySigned, Covered, RowsSafe, Admits;
    if forall i :: 0 <= i < |states| ==> KeySigned(states[i], key) {
      forall i | 0 <= i < |works|
        ensures Covered(states[i], works[i], key)
      {
        RunRowsSafe(states, works, i);
        EndSignedIff(states[i], works[i], key);
        assert KeySigned(states[i + 1], key);
      }
    }
    if forall i :: 0 <= i < |works| ==> Covered(states[i], works[i], key) {
      forall i | 0 <= i < |states|
        ensures KeySigned(states[i], key)
      {
        CoveredSigned(states, works, i, key);
      }
    }
  }

  /** As long as every PDF left ungated is covered, the PDF is signed. */
  lemma {:induction false} CoveredSigned(states: seq<State>, works: seq<Work>, n: nat, key: ReportKey)
    requires IsRun(states, works) && n < |states|
    requires forall i :: 0 <= i < n ==> Covered(states[i], works[i], key)
    ensures KeySigned(states[n], key)
  {
    hide End, KeySigned, Covered, RowsSafe, Admits;
    if n == 0 {
      EmptySigned(key);
    } else {
      CoveredSigned(states, works, n - 1, key);
      RunRowsSafe(states, works, n - 1);
      EndSignedIff(states[n - 1], works[n - 1], key);
    }
  }

  lemma EmptySigned(key: ReportKey)
    ensures KeySigned(Empty(), key)
  {
  }

  /** All invariants hold in every state of a run if and only if every PDF left ungated is covered. */
  lemma RunSafeIff(states: seq<State>, works: seq<Work>)
    requires IsRun(states, works)
    ensures (forall i :: 0 <= i < |states| ==> Safe(states[i]))
       <==> (forall i, key :: 0 <= i < |works| ==> Covered(states[i], works[i], key))
  {
    hide Covered, RowsSafe, SignedFor, End, Admits;
    if forall i :: 0 <= i < |states| ==> Safe(states[i]) {
      forall i, key | 0 <= i < |works|
        ensures Covered(states[i], works[i], key)
      {
        PdfSignedIff(states, works, key);
      }
    }
    if forall i, key :: 0 <= i < |works| ==> Covered(states[i], works[i], key) {
      forall i | 0 <= i < |states|
        ensures Safe(states[i])
      {
        RunRowsSafe(states, works, i);
        forall key
          ensures KeySigned(states[i], key)
        {
          PdfSignedIff(states, works, key);
        }
        EachSigned(states[i]);
      }
    }
  }

  lemma EachSigned(s: State)
    requires forall key :: KeySigned(s, key)
    ensures PdfsSigned(s)
  {
    forall key | key in s.reports && s.reports[key]
      ensures SignedFor(s.approvals, key.snapshot)
    {
      assert KeySigned(s, key);
    }
  }

  // ----- the report approval command

  /** The approval command: one sign-off in a session of its own, committed unless it raises or the commit fails. */
  ghost function CommandEnd(s: State, c: Command, commitWorks: bool): State
    requires Admissible(s, c)
  {
    var out := Step(s, c);
    if out.error.None? && commitWorks then out.state else RolledBack(s, out.state)
  }

  /** The sign-off gets as far as rendering. */
  predicate Attempts(s: State, c: Command)
    requires c.ApproveReport?
  {
    c.key in s.reports && !AnyOpen(s.breaks) && c.gate == Some(Approved)
  }

  lemma CommandIsSession(s: State, c: Command, commitWorks: bool)
    requires Admissible(s, c)
    ensures AllAdmissible(s, [c])
    ensures CommandEnd(s, c, commitWorks) == End(s, Work([c], Step(s, c).error.None? && commitWorks))
    ensures forall key :: Leaves(s, [c], key) <==> LeavesPdf(s, c) && c.key == key
  {
    hide Step, Admissible, LeavesPdf;
    OneCall(s, c);
    assert [c][1..] == [];
  }

  /**
   * The command leaves an unsigned PDF exactly when the snapshot was unsigned, rendering was attempted, and either it
   * left a file without succeeding or the commit failed after it.
   */
  lemma CommandSignedIff(s: State, c: Command, commitWorks: bool)
    requires RowsSafe(s) && Admissible(s, c) && c.ApproveReport? && KeySigned(s, c.key)
    ensures !KeySigned(CommandEnd(s, c, commitWorks), c.key)
       <==> !SignedFor(s.approvals, c.key.snapshot) && Attempts(s, c)
            && (c.rendering == Breaks(true) || (c.rendering.Renders? && !commitWorks))
  {
    CommandRaises(s, c);
    hide RowsSafe, Step, Admissible, SignedFor, AnyOpen, CommandEnd;
    CommandIsSession(s, c, commitWorks);
    EndSignedIff(s, Work([c], Step(s, c).error.None? && commitWorks), c.key);
    LeavesPdfIff(s, c);
  }

  lemma CommandRaises(s: State, c: Command)
    requires Admissible(s, c) && c.ApproveReport?
    ensures Step(s, c).error.None? <==> c.key in s.reports && (Attempts(s, c) ==> c.rendering.Renders?)
  {
    hide IsLatestStatus, Fresh, AnyOpen;
  }

  /** The named approval is on record after the command exactly when nothing was raised and the commit worked. */
  lemma SignOffKeptIff(s: State, c: Command, commitWorks: bool)
    requires Admissible(s, c) && c.ApproveReport?
    ensures var t := CommandEnd(s, c, commitWorks);
            && (c.requestId in t.approvals
                <==> commitWorks && c.key in s.reports && (Attempts(s, c) ==> c.rendering.Renders?))
            && (c.requestId in t.approvals ==>
                  && IsRequestFor(t.approvals[c.requestId], c.key.snapshot)
                  && t.approvals[c.requestId].status.Approved?
                  && t.approvals[c.requestId].reviewer == Some(c.reviewer))
            && (c.requestId !in t.approvals ==> t == s.(reports := t.reports))
  {
    hide IsLatestStatus, AnyOpen;
    CommandRaises(s, c);
    FreshRequest(s, c.requestId);
  }
}
