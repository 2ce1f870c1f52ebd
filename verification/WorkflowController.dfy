/**
 The workflow controller over the session's objects (packages/education/src/workflow-controller.ts):
 updates are validated on a detached copy of the session and committed at once.
 */
module WorkflowController {
  import opened Common
  import opened Workflow

  class UnderstandingState {
    var messages: seq<string>
    var ready: bool

    constructor (v: UnderstandingView)
      ensures View() == v
    {
      messages, ready := v.messages, v.ready;
    }

    function View(): UnderstandingView reads this { UnderstandingView(messages, ready) }
  }

  class StudentPlan {
    var steps: seq<PlanStep>
    var approved: bool
    var concerns: seq<string>
    var acknowledgements: seq<string>
    var summary: Option<string>

    constructor (v: PlanView)
      ensures View() == v
    {
      steps, approved, concerns, acknowledgements, summary := v.steps, v.approved, v.concerns, v.acknowledgements,
          v.summary;
    }

    function View(): PlanView reads this { PlanView(steps, approved, concerns, acknowledgements, summary) }

    /** packages/education/src/student-plan.ts: the text must come from the student and the plan must be open. */
    method AddStep(description: string) returns (r: Result<PlanStep, Rejection>)
      modifies this`steps
      ensures r == if Trim(description) == "" then Err(EmptyStep)
                   else if approved then Err(PlanAlreadyApproved) else Ok(NewStep(old(steps), description))
      ensures steps == if r.Ok? then old(steps) + [r.value] else old(steps)
    {
      var normalized := Trim(description);
      if normalized == "" { return Err(EmptyStep); }
      if approved { return Err(PlanAlreadyApproved); }
      var step := PlanStep("step-" + Decimal(|steps| + 1), normalized, Pending, true);
      steps := steps + [step];
      r := Ok(step);
    }

    method Approve(acknowledgement: string) returns (r: Result<(), Rejection>)
      modifies this`approved, this`acknowledgements
      ensures r == if !HasStudentAuthoredSteps(steps) then Err(NoStudentStep)
                   else if Trim(acknowledgement) == "" then Err(NoAcknowledgement) else Ok(())
      ensures r.Ok? ==> approved && acknowledgements == old(acknowledgements) + [Trim(acknowledgement)]
      ensures r.Err? ==> approved == old(approved) && acknowledgements == old(acknowledgements)
    {
      var normalized := Trim(acknowledgement);
      if !HasStudentAuthoredSteps(steps) { return Err(NoStudentStep); }
      if normalized == "" { return Err(NoAcknowledgement); }
      approved := true;
      acknowledgements := acknowledgements + [normalized];
      r := Ok(());
    }
  }

  class ImplementationState {
    var filesChanged: seq<string>
    var actions: seq<string>

    constructor (v: ImplementationView)
      ensures View() == v
    {
      filesChanged, actions := v.filesChanged, v.actions;
    }

    function View(): ImplementationView reads this { ImplementationView(filesChanged, actions) }
  }

  class VerificationState {
    var strategy: Option<string>
    var commands: seq<string>
    var passed: Option<bool>

    constructor (v: VerificationView)
      ensures View() == v
    {
      strategy, commands, passed := v.strategy, v.commands, v.passed;
    }

    function View(): VerificationView reads this { VerificationView(strategy, commands, passed) }
  }

  class ReflectionState {
    var messages: seq<string>
    var complete: bool

    constructor (v: ReflectionView)
      ensures View() == v
    {
      messages, complete := v.messages, v.complete;
    }

    function View(): ReflectionView reads this { ReflectionView(messages, complete) }
  }

  class LearningSession {
    const id: string
    const cwd: string
    var stage: Stage
    var learnMode: Option<bool>
    var question: Option<Question>
    var routing: Option<Routing>
    var goal: Option<string>
    var understanding: UnderstandingState
    var plan: StudentPlan
    var implementation: ImplementationState
    var verification: VerificationState
    var reflection: ReflectionState
    var createdAt: int
    var updatedAt: int

    function View(): Session
      reads this, understanding, plan, implementation, verification, reflection
    {
      Session(stage, learnMode, question, routing, goal, understanding.View(), plan.View(), implementation.View(),
              verification.View(), reflection.View(), createdAt, updatedAt)
    }

    ghost function Parts(): set<object>
      reads this
    {
      {understanding, plan, implementation, verification, reflection}
    }

    constructor New(cwd: string, id: string, now: int)
      ensures View() == Created(now) && fresh(Parts()) && this.id == id && this.cwd == cwd
    {
      this.id, this.cwd := id, cwd;
      stage, learnMode, question, routing, goal := Understand, None, None, None, None;
      understanding := new UnderstandingState(UnderstandingView([], false));
      plan := new StudentPlan(PlanView([], false, [], [], None));
      implementation := new ImplementationState(ImplementationView([], []));
      verification := new VerificationState(VerificationView(None, [], None));
      reflection := new ReflectionState(ReflectionView([], false));
      createdAt, updatedAt := now, now;
      new;
      assert plan.View() == PlanView([], false, [], [], None);
    }

    /** The detached candidate: a copy of the session whose parts are copies too. */
    constructor Copy(other: LearningSession)
      ensures View() == other.View() && fresh(Parts()) && id == other.id && cwd == other.cwd
    {
      id, cwd := other.id, other.cwd;
      stage, learnMode, question, routing, goal := other.stage, other.learnMode, other.question, other.routing,
          other.goal;
      understanding := new UnderstandingState(other.understanding.View());
      plan := new StudentPlan(other.plan.View());
      implementation := new ImplementationState(other.implementation.View());
      verification := new VerificationState(other.verification.View());
      reflection := new ReflectionState(other.reflection.View());
      createdAt, updatedAt := other.createdAt, other.updatedAt;
    }
  }

  /** One call of one registered listener. */
  datatype Notice = Changed(listener: nat) | Entered(stageListener: nat, stage: Stage)

  function ChangeNotices(listeners: seq<nat>): seq<Notice> {
    seq(|listeners|, i requires 0 <= i < |listeners| => Changed(listeners[i]))
  }

  function StageNotices(listeners: seq<nat>, stage: Stage): seq<Notice> {
    seq(|listeners|, i requires 0 <= i < |listeners| => Entered(listeners[i], stage))
  }

  function UpdateNotices(changeListeners: seq<nat>, stageListeners: seq<nat>, entered: Option<Stage>): seq<Notice> {
    ChangeNotices(changeListeners) + if entered.Some? then StageNotices(stageListeners, entered.value) else []
  }

  /** Where no listener is registered twice, each registered one is called exactly once. */
  lemma {:induction false} EachCalledOnce(listeners: seq<nat>, listener: nat, stage: Stage)
    requires NoRepeats(listeners)
    ensures multiset(ChangeNotices(listeners))[Changed(listener)] == if listener in listeners then 1 else 0
    ensures multiset(StageNotices(listeners, stage))[Entered(listener, stage)] == if listener in listeners then 1 else 0
  {
    if listeners != [] {
      var init, last := listeners[..|listeners| - 1], listeners[|listeners| - 1];
      EachCalledOnce(init, listener, stage);
      assert ChangeNotices(listeners) == ChangeNotices(init) + [Changed(last)];
      assert StageNotices(listeners, stage) == StageNotices(init, stage) + [Entered(last, stage)];
      assert last !in init;
    }
  }

  datatype Prepared = Prepared(candidate: LearningSession, entered: Option<Stage>)

  class Controller {
    const state: LearningSession
    const policy: ToolPolicy
    var changeListeners: seq<nat>
    var stageListeners: seq<nat>
    /** The listener calls made so far. */
    ghost var notices: seq<Notice>

    /** Listeners are kept in sets: none is registered twice. */
    ghost predicate Valid()
      reads this
    {
      NoRepeats(changeListeners) && NoRepeats(stageListeners)
    }

    constructor (state: LearningSession, policy: ToolPolicy)
      ensures Valid()
      ensures this.state == state && this.policy == policy && changeListeners == [] && stageListeners == []
                && notices == []
    {
      this.state, this.policy := state, policy;
      changeListeners, stageListeners, notices := [], [], [];
    }

    method OnChange(listener: nat)
      requires Valid()
      modifies this`changeListeners
      ensures Valid()
      ensures changeListeners == if listener in old(changeListeners) then old(changeListeners)
                else old(changeListeners) + [listener]
    {
      if listener !in changeListeners { changeListeners := changeListeners + [listener]; }
    }

    /** What onChange returns: the listener is called no more. */
    method OffChange(listener: nat)
      requires Valid()
      modifies this`changeListeners
      ensures Valid() && forall l :: l in changeListeners <==> l in old(changeListeners) && l != listener
    {
      FilterNoRepeats((l: nat) => l != listener, changeListeners);
      changeListeners := Filter((l: nat) => l != listener, changeListeners);
    }

    method OffStageChange(listener: nat)
      requires Valid()
      modifies this`stageListeners
      ensures Valid() && forall l :: l in stageListeners <==> l in old(stageListeners) && l != listener
    {
      FilterNoRepeats((l: nat) => l != listener, stageListeners);
      stageListeners := Filter((l: nat) => l != listener, stageListeners);
    }

    method OnStageChange(listener: nat)
      requires Valid()
      modifies this`stageListeners
      ensures Valid()
      ensures stageListeners == if listener in old(stageListeners) then old(stageListeners)
                else old(stageListeners) + [listener]
    {
      if listener !in stageListeners { stageListeners := stageListeners + [listener]; }
    }

    method NotifyChange()
      modifies this`notices
      ensures notices == old(notices) + ChangeNotices(changeListeners)
    {
      for i := 0 to |changeListeners|
        invariant notices == old(notices) + ChangeNotices(changeListeners)[..i]
      {
        notices := notices + [Changed(changeListeners[i])];
      }
    }

    method NotifyStage(stage: Stage)
      modifies this`notices
      ensures notices == old(notices) + StageNotices(stageListeners, stage)
    {
      for i := 0 to |stageListeners|
        invariant notices == old(notices) + StageNotices(stageListeners, stage)[..i]
      {
        notices := notices + [Entered(stageListeners[i], stage)];
      }
    }

    method Touch(now: int)
      modifies state`updatedAt, this`notices
      ensures state.View() == old(state.View()).(updatedAt := now)
      ensures notices == old(notices) + ChangeNotices(changeListeners)
    {
      state.updatedAt := now;
      NotifyChange();
    }

    method SetLearnMode(enabled: bool, now: int)
      requires Valid()
      modifies state`learnMode, state`updatedAt, this`notices
      ensures Valid()
      ensures old(state.learnMode) == Some(enabled) ==> state.View() == old(state.View()) && notices == old(notices)
      ensures old(state.learnMode) != Some(enabled) ==>
                state.View() == old(state.View()).(learnMode := Some(enabled), updatedAt := now)
                && notices == old(notices) + ChangeNotices(changeListeners)
    {
      if state.learnMode == Some(enabled) { return; }
      state.learnMode := Some(enabled);
      Touch(now);
    }

    method SetQuestion(question: Option<Question>, now: int)
      requires Valid()
      modifies state`question, state`updatedAt, this`notices
      ensures Valid()
      ensures state.View() == old(state.View()).(question := question, updatedAt := now)
      ensures notices == old(notices) + ChangeNotices(changeListeners)
    {
      state.question := question;
      Touch(now);
    }

    method AddStudentPlanStep(description: string, now: int) returns (r: Result<(), Rejection>)
      requires Valid()
      modifies state`updatedAt, state.plan`steps, this`notices
      ensures Valid()
      ensures var spec := AddStep(old(state.View()), description, now);
              if spec.Ok? then r == Ok(()) && state.View() == spec.value
                  && notices == old(notices) + ChangeNotices(changeListeners)
              else r == Err(spec.error) && state.View() == old(state.View()) && notices == old(notices)
    {
      if state.stage != Plan { return Err(OutsidePlan); }
      var added := state.plan.AddStep(description);
      if added.Err? { return Err(added.error); }
      Touch(now);
      r := Ok(());
    }

    method ApproveStudentPlan(acknowledgement: string, now: int) returns (r: Result<(), Rejection>)
      requires Valid()
      modifies state`updatedAt, state.plan`approved, state.plan`acknowledgements, this`notices
      ensures Valid()
      ensures var spec := Approve(old(state.View()), acknowledgement, now);
              if spec.Ok? then r == Ok(()) && state.View() == spec.value
                  && notices == old(notices) + ChangeNotices(changeListeners)
              else r == Err(spec.error) && state.View() == old(state.View()) && notices == old(notices)
    {
      if state.stage != Plan { return Err(OutsidePlan); }
      var approved := state.plan.Approve(acknowledgement);
      if approved.Err? { return Err(approved.error); }
      Touch(now);
      r := Ok(());
    }

    static method ReportPlan(plan: StudentPlan, u: Update)
      modifies plan`summary, plan`approved
      ensures plan.View() == old(plan.View()).(summary := Reported(u.planSummary, old(plan.summary)),
                                               approved := if u.studentApprovedPlan == Some(false) then false
                                                   else old(plan.approved))
    {
      if u.planSummary.Some? && Trim(u.planSummary.value) != "" { plan.summary := Some(Trim(u.planSummary.value)); }
      if u.studentApprovedPlan == Some(false) { plan.approved := false; }
    }

    static method ReportVerification(verification: VerificationState, u: Update)
      modifies verification`strategy, verification`passed
      ensures verification.View() == old(verification.View()).(
                strategy := Reported(u.verificationStrategy, old(verification.strategy)),
                passed := if u.verificationPassed.Some? then u.verificationPassed else old(verification.passed))
    {
      if u.verificationStrategy.Some? && Trim(u.verificationStrategy.value) != "" {
        verification.strategy := Some(Trim(u.verificationStrategy.value));
      }
      if u.verificationPassed.Some? { verification.passed := u.verificationPassed; }
    }

    static method ReportGoal(candidate: LearningSession, u: Update)
      modifies candidate`goal
      ensures candidate.goal == Reported(u.goalSummary, old(candidate.goal))
    {
      if u.goalSummary.Some? && Trim(u.goalSummary.value) != "" { candidate.goal := Some(Trim(u.goalSummary.value)); }
    }

    static method ReportFlags(understanding: UnderstandingState, reflection: ReflectionState, u: Update)
      modifies understanding`ready, reflection`complete
      ensures understanding.ready == ReportedFlag(u.understandingReady, old(understanding.ready))
      ensures reflection.complete == ReportedFlag(u.reflectionComplete, old(reflection.complete))
    {
      if u.understandingReady.Some? { understanding.ready := u.understandingReady.value; }
      if u.reflectionComplete.Some? { reflection.complete := u.reflectionComplete.value; }
    }

    /** Each assignment of the source's list concerns its own field, so their order is immaterial. */
    static method ReportProgress(candidate: LearningSession, u: Update)
      modifies candidate`goal, candidate.understanding`ready, candidate.plan`summary, candidate.plan`approved
      modifies candidate.verification`strategy, candidate.verification`passed, candidate.reflection`complete
      ensures candidate.View() == Candidate(old(candidate.View()), u)
    {
      ReportGoal(candidate, u);
      ReportPlan(candidate.plan, u);
      ReportVerification(candidate.verification, u);
      ReportFlags(candidate.understanding, candidate.reflection, u);
    }

    static method EnterStage(candidate: LearningSession, to: Stage)
      modifies candidate`stage, candidate.plan`summary, candidate.plan`approved
      modifies candidate.verification`commands, candidate.verification`passed, candidate.reflection`complete
      ensures candidate.View() == Enter(old(candidate.View()), to)
    {
      var from := candidate.stage;
      if to == Plan && from != Understand {
        candidate.plan.approved := false;
        candidate.plan.summary := None;
      }
      if (from == Plan && to == Implement) || (from == Implement && to == Review) {
        candidate.verification.passed := None;
        candidate.verification.commands := [];
        candidate.reflection.complete := false;
      }
      candidate.stage := to;
    }

    /** Object.assign(this.state, candidate): the session takes over the candidate's fields and parts. */
    method Commit(candidate: LearningSession)
      modifies state
      ensures state.View() == old(candidate.View())
      ensures state.Parts() == old(candidate.Parts())
    {
      CommitParts(candidate);
      state.stage, state.learnMode, state.question, state.routing, state.goal :=
        candidate.stage, candidate.learnMode, candidate.question, candidate.routing, candidate.goal;
      state.createdAt, state.updatedAt := candidate.createdAt, candidate.updatedAt;
    }

    method CommitParts(candidate: LearningSession)
      modifies state`understanding, state`plan, state`implementation, state`verification, state`reflection
      ensures state.understanding == old(candidate.understanding) && state.plan == old(candidate.plan)
      ensures state.implementation == old(candidate.implementation)
      ensures state.verification == old(candidate.verification) && state.reflection == old(candidate.reflection)
    {
      state.understanding, state.plan := candidate.understanding, candidate.plan;
      state.implementation := candidate.implementation;
      state.verification, state.reflection := candidate.verification, candidate.reflection;
    }

    /** Checks the candidate and, if it may leave its stage, enters the next one. */
    static method AdvanceCandidate(candidate: LearningSession, u: Update, reflectionRequired: bool)
      returns (r: Result<Option<Stage>, Rejection>)
      modifies candidate`stage, candidate.plan`summary, candidate.plan`approved
      modifies candidate.verification`commands, candidate.verification`passed, candidate.reflection`complete
      ensures var spec := Advance(old(candidate.View()), u, reflectionRequired);
              if spec.Ok? then r == Ok(spec.value.entered) && candidate.View() == spec.value.session
                  else r == Err(spec.error)
    {
      if !u.readyForNextStage { return Ok(None); }
      if !ReadyToLeave(candidate.View(), reflectionRequired) { return Err(NotReady(candidate.stage)); }
      var next := NextStageFor(candidate.stage, u.requestedNextStage, candidate.verification.passed);
      if next.Ok? && next.value.Some? {
        if !CanTransition(candidate.stage,
            next.value.value) { return Err(IllegalTransition(candidate.stage, next.value.value)); }
        EnterStage(candidate, next.value.value);
      }
      r := next;
    }

    method NotifyUpdate(entered: Option<Stage>)
      modifies this`notices
      ensures notices == old(notices) + UpdateNotices(changeListeners, stageListeners, entered)
    {
      NotifyChange();
      if entered.Some? { NotifyStage(entered.value); }
    }

    method DetachedCandidate(u: Update) returns (candidate: LearningSession)
      ensures fresh(candidate) && fresh(candidate.Parts()) && candidate.View() == Candidate(old(state.View()), u)
    {
      candidate := new LearningSession.Copy(state);
      ReportProgress(candidate, u);
    }

    /**
     Everything after the first two checks that can refuse an update, on a fresh copy; nothing that existed before is
     written.
     */
    method Prepare(u: Update, reflectionRequired: bool, now: int) returns (r: Result<Prepared, Rejection>)
      ensures var spec := Advance(Candidate(old(state.View()), u), u, reflectionRequired);
              && (spec.Err? ==> r == Err(spec.error))
              && (spec.Ok? ==>
                    && r.Ok? && fresh(r.value.candidate) && fresh(r.value.candidate.Parts())
                    && r.value.candidate.View() == spec.value.session.(updatedAt := now)
                        && r.value.entered == spec.value.entered)
    {
      var candidate := DetachedCandidate(u);
      var next := AdvanceCandidate(candidate, u, reflectionRequired);
      if next.Err? { return Err(next.error); }
      candidate.updatedAt := now;
      r := Ok(Prepared(candidate, next.value));
    }

    /**
     Atomic: a rejected update changes no field of the session, none of the objects it holds, and
     calls no listener. An accepted one commits the whole new session, calls every change listener
     once, and every stage listener once with the new stage exactly if a stage was entered. The
     objects the session held before are never written.
     */
    method UpdateLearningState(u: Update, reflectionRequired: bool, now: int) returns (r: Result<(), Rejection>)
      requires Valid()
      modifies state, this`notices
      ensures Valid()
      ensures var spec := Apply(old(state.View()), u, reflectionRequired, now);
              && (spec.Err? ==>
                    && r == Err(spec.error) && unchanged(state) && state.View() == old(state.View())
                    && notices == old(notices))
              && (spec.Ok? ==>
                    && r == Ok(()) && state.View() == spec.value.session && fresh(state.Parts())
                    && notices == old(notices) + UpdateNotices(changeListeners, stageListeners, spec.value.entered))
    {
      if u.currentStage != state.stage { return Err(StaleUpdate); }
      if u.studentApprovedPlan == Some(true) { return Err(AgentApproval); }
      var prepared := Prepare(u, reflectionRequired, now);
      if prepared.Err? { return Err(prepared.error); }
      Commit(prepared.value.candidate);
      NotifyUpdate(prepared.value.entered);
      r := Ok(());
    }
  }

  /** The stage listeners run exactly when the update changes the stage, and then along a legal edge. */
  lemma StageEnteredExactlyWhenChanged(v: Session, u: Update, reflectionRequired: bool, now: int)
    ensures var r := Apply(v, u, reflectionRequired, now);
            r.Ok? ==>
              && (r.value.entered.Some? <==> r.value.session.stage != v.stage)
              && (r.value.entered.Some? ==>
                  r.value.session.stage == r.value.entered.value && CanTransition(v.stage, r.value.entered.value))
  {
  }
}
