/**
 Whole runs of the workflow from a new session: approval before editing, and evidence of a pass
 before reflection, over every sequence of operations.
 */
module WorkflowRuns {
  import opened Common
  import opened Workflow

  datatype Operation =
    | SetLearnMode(enabled: bool)
    | SetQuestion(question: Option<Question>)
    | SetRouting(routing: Routing)
    | AddPlanStep(description: string)
    | ApprovePlan(acknowledgement: string)
    | Report(update: Update, reflectionRequired: bool)

  datatype Action = Action(operation: Operation, now: int)

  function Perform(v: Session, a: Action): Result<Session, Rejection> {
    match a.operation
    case SetLearnMode(enabled) => Ok(if v.learnMode == Some(enabled) then v
        else v.(learnMode := Some(enabled), updatedAt := a.now))
    case SetQuestion(question) => Ok(v.(question := question, updatedAt := a.now))
    case SetRouting(routing) => Ok(v.(routing := Some(routing), updatedAt := a.now))
    case AddPlanStep(description) => AddStep(v, description, a.now)
    case ApprovePlan(acknowledgement) => Approve(v, acknowledgement, a.now)
    case Report(update, reflectionRequired) =>
      var r := Apply(v, update, reflectionRequired, a.now);
      if r.Ok? then Ok(r.value.session) else Err(r.error)
  }

  /** A rejected operation leaves the session as it was. */
  function After(v: Session, a: Action): Session {
    var r := Perform(v, a);
    if r.Ok? then r.value else v
  }

  /** states[i] is the session before actions[i], and states[i + 1] the session after it. */
  ghost predicate ValidRun(states: seq<Session>, actions: seq<Action>) {
    && |states| == |actions| + 1
    && (exists now :: states[0] == Created(now))
    && (forall i :: 0 <= i < |actions| ==> states[i + 1] == After(states[i], actions[i]))
  }

  predicate Moves(states: seq<Session>, i: int, from: Stage, to: Stage)
    requires 0 <= i < |states| - 1
  {
    states[i].stage == from && states[i + 1].stage == to
  }

  /** The student approves the plan in step i. */
  predicate Approves(states: seq<Session>, actions: seq<Action>, i: int)
    requires 0 <= i < |actions| && |states| == |actions| + 1
  {
    actions[i].operation.ApprovePlan? && Perform(states[i], actions[i]).Ok?
  }

  /** Step i is an accepted update that reports this verification outcome. */
  predicate Reports(states: seq<Session>, actions: seq<Action>, i: int, passed: bool)
    requires 0 <= i < |actions| && |states| == |actions| + 1
  {
    && actions[i].operation.Report? && Perform(states[i], actions[i]).Ok?
    && actions[i].operation.update.verificationPassed == Some(passed)
  }

  /** The stage is Plan in all of states i to j. */
  ghost predicate PlanThroughout(states: seq<Session>, i: int, j: int)
    requires 0 <= i && j < |states|
  {
    forall k :: i <= k <= j ==> states[k].stage == Plan
  }

  /** An approval in step i, and no step back out of Plan up to state n. */
  ghost predicate ApprovedThisVisit(states: seq<Session>, actions: seq<Action>, i: int, n: int)
    requires |states| == |actions| + 1 && n < |states|
  {
    0 <= i < n && Approves(states, actions, i) && PlanThroughout(states, i, n)
  }

  /** In state n the plan in force was approved in step i of the latest visit to Plan, which ended with step m. */
  ghost predicate ApprovedLastVisit(states: seq<Session>, actions: seq<Action>, i: int, m: int, n: int)
    requires |states| == |actions| + 1 && n < |states|
  {
    && 0 <= i < m < n && ApprovedThisVisit(states, actions, i, m)
    && Moves(states, m, Plan, Implement)
    && forall k :: m < k <= n ==> states[k].stage != Plan
  }

  ghost predicate VisitIsApproved(states: seq<Session>, actions: seq<Action>, n: int)
    requires |states| == |actions| + 1 && 0 <= n < |states|
  {
    exists i :: ApprovedThisVisit(states, actions, i, n)
  }

  ghost predicate PlanWasApproved(states: seq<Session>, actions: seq<Action>, n: int)
    requires |states| == |actions| + 1 && 0 <= n < |states|
  {
    exists i, m :: ApprovedLastVisit(states, actions, i, m, n)
  }

  ghost predicate ApprovalInv(states: seq<Session>, actions: seq<Action>, n: int)
    requires |states| == |actions| + 1 && 0 <= n < |states|
  {
    && (states[n].stage == Understand ==> !states[n].plan.approved)
    && (states[n].stage == Plan && states[n].plan.approved ==> VisitIsApproved(states, actions, n))
    && (states[n].stage !in [Understand, Plan] ==> PlanWasApproved(states, actions, n))
  }

  // ----- One step -----

  /** Accepted or not, a step keeps the stage or moves along a legal transition. */
  lemma StepIsLegal(v: Session, a: Action)
    ensures After(v, a).stage == v.stage || (a.operation.Report? && CanTransition(v.stage, After(v, a).stage))
  {
  }

  /** Only an approval sets the plan's approved flag. */
  lemma ApprovalComesFromStudent(v: Session, a: Action)
    requires After(v, a).plan.approved && !v.plan.approved
    ensures a.operation.ApprovePlan? && Perform(v, a).Ok? && v.stage == Plan && After(v, a).stage == Plan
  {
  }

  /** Entering Plan from anywhere but Understand clears the approval. */
  lemma ReturnClearsApproval(v: Session, a: Action)
    requires After(v, a).stage == Plan && v.stage != Plan && v.stage != Understand
    ensures !After(v, a).plan.approved && After(v, a).plan.summary == None
  {
  }

  /** Leaving Plan takes a summary, a student-authored step and an approval still in force. */
  lemma LeavingPlan(v: Session, a: Action)
    requires v.stage == Plan && After(v, a).stage != Plan
    ensures After(v, a).stage == Implement && v.plan.approved
    ensures Truthy(After(v, a).plan.summary) && HasStudentAuthoredSteps(v.plan.steps)
              && After(v, a).plan.steps == v.plan.steps
  {
    StepIsLegal(v, a);
  }

  lemma VisitContinues(states: seq<Session>, actions: seq<Action>, i: int, n: int)
    requires |states| == |actions| + 1 && 0 <= n < |actions|
    requires ApprovedThisVisit(states, actions, i, n) && states[n + 1].stage == Plan
    ensures ApprovedThisVisit(states, actions, i, n + 1)
  {
  }

  lemma VisitApproved(states: seq<Session>, actions: seq<Action>, n: int)
    requires |states| == |actions| + 1 && 0 <= n < |actions|
    requires Approves(states, actions, n) && states[n].stage == Plan && states[n + 1].stage == Plan
    ensures ApprovedThisVisit(states, actions, n, n + 1)
  {
  }

  lemma ApprovedVisitContinues(states: seq<Session>, actions: seq<Action>, n: int)
    requires |states| == |actions| + 1 && 0 <= n < |actions| && states[n + 1] == After(states[n], actions[n])
    requires states[n].plan.approved ==> VisitIsApproved(states, actions, n)
    requires states[n].stage == Plan && states[n + 1].stage == Plan && states[n + 1].plan.approved
    ensures VisitIsApproved(states, actions, n + 1)
  {
    if states[n].plan.approved {
      var i :| ApprovedThisVisit(states, actions, i, n);
      VisitContinues(states, actions, i, n);
    } else {
      ApprovalComesFromStudent(states[n], actions[n]);
      VisitApproved(states, actions, n);
    }
  }

  lemma LastVisitContinues(states: seq<Session>, actions: seq<Action>, i: int, m: int, n: int)
    requires |states| == |actions| + 1 && 0 <= n < |actions|
    requires ApprovedLastVisit(states, actions, i, m, n) && states[n + 1].stage != Plan
    ensures ApprovedLastVisit(states, actions, i, m, n + 1)
  {
  }

  /** Leaving Plan, or moving on elsewhere, keeps the approval in force. */
  lemma ApprovalStaysInForce(states: seq<Session>, actions: seq<Action>, n: int)
    requires ValidRun(states, actions) && 0 <= n < |actions| && ApprovalInv(states, actions, n)
    requires states[n].stage != Understand && states[n + 1].stage !in [Understand, Plan]
    ensures PlanWasApproved(states, actions, n + 1)
  {
    if states[n].stage == Plan {
      LeavingPlan(states[n], actions[n]);
      var i :| ApprovedThisVisit(states, actions, i, n);
      assert ApprovedLastVisit(states, actions, i, n, n + 1);
    } else {
      var i, m :| ApprovedLastVisit(states, actions, i, m, n);
      LastVisitContinues(states, actions, i, m, n);
    }
  }

  lemma ApprovalStep(states: seq<Session>, actions: seq<Action>, n: int)
    requires ValidRun(states, actions) && 0 <= n < |actions| && ApprovalInv(states, actions, n)
    ensures ApprovalInv(states, actions, n + 1)
  {
    var v, w, a := states[n], states[n + 1], actions[n];
    assert w == After(v, a);
    StepIsLegal(v, a);
    if w.plan.approved && !v.plan.approved { ApprovalComesFromStudent(v, a); }
    if w.stage == Plan {
      if v.stage == Plan {
        if w.plan.approved { ApprovedVisitContinues(states, actions, n); }
      } else if v.stage != Understand {
        ReturnClearsApproval(v, a);
      }
    } else if w.stage != Understand {
      ApprovalStaysInForce(states, actions, n);
    }
  }

  lemma {:induction false} ApprovalHolds(states: seq<Session>, actions: seq<Action>, n: int)
    requires ValidRun(states, actions) && 0 <= n < |states|
    ensures ApprovalInv(states, actions, n)
  {
    if n > 0 {
      ApprovalHolds(states, actions, n - 1);
      ApprovalStep(states, actions, n - 1);
    }
  }

  /**
   No editing without a fresh approval: whenever edit or write is usable, the student approved a
   plan during the latest visit to Plan, and the session has not been back to Plan since.
   */
  lemma EditingNeedsApproval(states: seq<Session>, actions: seq<Action>, n: int, tool: string)
    requires ValidRun(states, actions) && 0 <= n < |states|
    requires tool == "edit" || tool == "write"
    requires CanUseTool(TOOL_POLICY, states[n], tool)
    ensures exists i, m :: ApprovedLastVisit(states, actions, i, m, n)
  {
    DefaultToolsAgree(states[n], tool);
    EditingStages(states[n], tool);
    ApprovalHolds(states, actions, n);
  }

  /**
   Every step from Plan to Implement happens with a summary and a student-authored step, and after
   an approval given during the current visit to Plan.
   */
  lemma ImplementingNeedsApprovedPlan(states: seq<Session>, actions: seq<Action>, n: int)
    requires ValidRun(states, actions) && 0 <= n < |actions| && Moves(states, n, Plan, Implement)
    ensures Truthy(states[n + 1].plan.summary) && HasStudentAuthoredSteps(states[n + 1].plan.steps)
    ensures exists i :: ApprovedThisVisit(states, actions, i, n)
  {
    LeavingPlan(states[n], actions[n]);
    ApprovalHolds(states, actions, n);
  }

  /** Every stage change of a run is a legal transition made by an accepted update. */
  lemma RunsAreLegal(states: seq<Session>, actions: seq<Action>, n: int)
    requires ValidRun(states, actions) && 0 <= n < |actions| && states[n + 1].stage != states[n].stage
    ensures CanTransition(states[n].stage, states[n + 1].stage)
    ensures actions[n].operation.Report? && Perform(states[n], actions[n]).Ok?
  {
    StepIsLegal(states[n], actions[n]);
  }

  // ----- A pass before reflection -----

  /** Step r reports a pass; after it no failure is reported and the verification is not started over, up to state n. */
  ghost predicate PassStands(states: seq<Session>, actions: seq<Action>, r: int, n: int)
    requires |states| == |actions| + 1 && n < |states|
  {
    && 0 <= r < n && Reports(states, actions, r, true)
    && (forall k :: r < k < n ==> !Reports(states, actions, k, false))
    && (forall k :: r <= k < n ==> !StartsOver(states[k].stage, states[k + 1].stage))
  }

  ghost predicate PassInv(states: seq<Session>, actions: seq<Action>, n: int)
    requires |states| == |actions| + 1 && 0 <= n < |states|
  {
    states[n].verification.passed == Some(true) ==> exists r :: PassStands(states, actions, r, n)
  }

  /** A recorded pass was there before or is reported in this step, and the step does not start over. */
  lemma PassIsReported(v: Session, a: Action)
    requires After(v, a).verification.passed == Some(true)
    ensures !StartsOver(v.stage, After(v, a).stage)
    ensures a.operation.Report? && Perform(v, a).Ok? ==> a.operation.update.verificationPassed != Some(false)
    ensures v.verification.passed == Some(true)
            || (a.operation.Report? && Perform(v, a).Ok? && a.operation.update.verificationPassed == Some(true))
  {
  }

  lemma PassCarries(states: seq<Session>, actions: seq<Action>, r: int, n: int)
    requires |states| == |actions| + 1 && 0 <= n < |actions| && PassStands(states, actions, r, n)
    requires !Reports(states, actions, n, false) && !StartsOver(states[n].stage, states[n + 1].stage)
    ensures PassStands(states, actions, r, n + 1)
  {
  }

  lemma PassStep(states: seq<Session>, actions: seq<Action>, n: int)
    requires |states| == |actions| + 1 && 0 <= n < |actions| && states[n + 1] == After(states[n], actions[n])
    requires PassInv(states, actions, n)
    ensures PassInv(states, actions, n + 1)
  {
    if states[n + 1].verification.passed == Some(true) {
      PassIsReported(states[n], actions[n]);
      if Reports(states, actions, n, true) {
        assert PassStands(states, actions, n, n + 1);
      } else {
        var r :| PassStands(states, actions, r, n);
        PassCarries(states, actions, r, n);
      }
    }
  }

  lemma {:induction false} PassHolds(states: seq<Session>, actions: seq<Action>, n: int)
    requires ValidRun(states, actions) && 0 <= n < |states|
    ensures PassInv(states, actions, n)
  {
    if n > 0 {
      PassHolds(states, actions, n - 1);
      PassStep(states, actions, n - 1);
    }
  }

  lemma ReachingReflect(v: Session, a: Action)
    requires After(v, a).stage == Reflect && v.stage != Reflect
    ensures v.stage == Verify && a.operation.Report? && Perform(v, a).Ok?
    ensures After(v, a).verification.passed == Some(true)
  {
    StepIsLegal(v, a);
  }

  /** A pass reported in step r stands after step n, and no step from r to n goes from Implement to Review. */
  ghost predicate PassedSinceReview(states: seq<Session>, actions: seq<Action>, r: int, n: int)
    requires |states| == |actions| + 1 && 0 <= n < |actions|
  {
    PassStands(states, actions, r, n + 1) && forall k :: r <= k <= n ==> !Moves(states, k, Implement, Review)
  }

  /**
   Every entry to Reflect comes from Verify, with a pass reported in that step or earlier and
   neither a failure nor an Implement-to-Review step after the report.
   */
  lemma ReflectingNeedsPass(states: seq<Session>, actions: seq<Action>, n: int)
    requires ValidRun(states, actions) && 0 <= n < |actions|
    requires states[n + 1].stage == Reflect && states[n].stage != Reflect
    ensures Moves(states, n, Verify, Reflect)
    ensures exists r :: PassedSinceReview(states, actions, r, n)
  {
    ReachingReflect(states[n], actions[n]);
    PassHolds(states, actions, n + 1);
    var r :| PassStands(states, actions, r, n + 1);
    assert PassedSinceReview(states, actions, r, n);
  }

  // ----- The pass while in Reflect -----

  /** The verification outcome an accepted update reports, if it is one and reports any. */
  function ReportedOutcome(v: Session, a: Action): Option<bool> {
    if a.operation.Report? && Perform(v, a).Ok? then a.operation.update.verificationPassed else None
  }

  /** The flag itself does not persist: in Reflect the model may still report a failure without changing stage. */
  lemma PassMayBeRevised(v: Session, now: int) returns (a: Action)
    requires v.stage == Reflect
    ensures After(v, a).stage == Reflect && After(v, a).verification.passed == Some(false)
  {
    a := Action(Report(Update(Reflect, false, None, None, None, None, None, None, Some(false), None), true), now);
  }

  /** In Reflect the outcome changes exactly to what an accepted update reports; the stage never changes. */
  lemma ReflectKeepsOutcome(v: Session, a: Action)
    requires v.stage == Reflect
    ensures After(v, a).stage == Reflect
    ensures After(v, a).verification.passed ==
              if ReportedOutcome(v, a).Some? then ReportedOutcome(v, a) else v.verification.passed
  {
    StepIsLegal(v, a);
  }

  /** A pass survives a step in Reflect exactly when the step is not an accepted report of a failure. */
  lemma PassStaysExactly(v: Session, a: Action)
    requires v.stage == Reflect && v.verification.passed == Some(true)
    ensures After(v, a).verification.passed == Some(true) <==> ReportedOutcome(v, a) != Some(false)
  {
    ReflectKeepsOutcome(v, a);
    OutcomeIsEither(ReportedOutcome(v, a));
  }

  lemma OutcomeIsEither(outcome: Option<bool>)
    ensures outcome in [None, Some(true), Some(false)]
  {
    if outcome.Some? {
      if outcome.value { assert outcome == Some(true); } else { assert outcome == Some(false); }
    }
  }

  /** The last outcome reported in steps m to n - 1, if any. */
  function LastOutcome(states: seq<Session>, actions: seq<Action>, m: int, n: int): Option<bool>
    requires 0 <= m <= n <= |actions| && |states| == |actions| + 1
    decreases n - m
  {
    if m == n then None
    else if ReportedOutcome(states[n - 1], actions[n - 1]).Some? then ReportedOutcome(states[n - 1], actions[n - 1])
    else LastOutcome(states, actions, m, n - 1)
  }

  /** Reflect was entered in step m and the session has been there up to state n. */
  ghost predicate InReflectSince(states: seq<Session>, m: int, n: int)
    requires n < |states|
  {
    0 <= m < n && states[m].stage != Reflect && forall k :: m < k <= n ==> states[k].stage == Reflect
  }

  lemma {:induction false} OutcomeSinceEntry(states: seq<Session>, actions: seq<Action>, m: int, n: int)
    requires ValidRun(states, actions) && 0 <= n < |states| && InReflectSince(states, m, n)
    ensures states[n].verification.passed == Some(LastOutcome(states, actions, m + 1, n).GetOr(true))
    decreases n
  {
    if n == m + 1 {
      assert states[m + 1] == After(states[m], actions[m]) && states[m + 1].stage == Reflect;
      ReachingReflect(states[m], actions[m]);
    } else {
      assert InReflectSince(states, m, n - 1);
      OutcomeSinceEntry(states, actions, m, n - 1);
      ReflectKeepsOutcome(states[n - 1], actions[n - 1]);
    }
  }

  lemma {:induction false} ReflectWasEntered(states: seq<Session>, actions: seq<Action>, n: int) returns (m: int)
    requires ValidRun(states, actions) && 0 <= n < |states| && states[n].stage == Reflect
    ensures InReflectSince(states, m, n)
  {
    m := n - 1;
    if states[n - 1].stage == Reflect { m := ReflectWasEntered(states, actions, n - 1); }
  }

  /**
   When "in Reflect the verification has passed" holds: in every state of every run with stage Reflect, exactly
   when the last outcome reported since Reflect was entered, if any was, is a pass.
   */
  lemma PassedInReflectExactly(states: seq<Session>, actions: seq<Action>, n: int) returns (m: int)
    requires ValidRun(states, actions) && 0 <= n < |states| && states[n].stage == Reflect
    ensures InReflectSince(states, m, n)
    ensures states[n].verification.passed == Some(true) <==> LastOutcome(states, actions, m + 1, n) != Some(false)
  {
    m := ReflectWasEntered(states, actions, n);
    OutcomeSinceEntry(states, actions, m, n);
    OutcomeIsEither(LastOutcome(states, actions, m + 1, n));
  }
}
