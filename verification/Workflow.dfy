/**
 The learning workflow: stages and their legal transitions, the student plan, the tools of a stage,
 and the effect of each controller operation on the session, as functions on values.
 */
module Workflow {
  import opened Common

  datatype Stage = Understand | Plan | Implement | Review | Verify | Reflect

  /** packages/education/src/transitions.ts */
  function TransitionsFrom(stage: Stage): seq<Stage> {
    match stage
    case Understand => [Plan]
    case Plan => [Implement]
    case Implement => [Review, Plan]
    case Review => [Implement, Plan, Verify]
    case Verify => [Implement, Reflect]
    case Reflect => []
  }

  predicate CanTransition(from: Stage, to: Stage) {
    to in TransitionsFrom(from)
  }

  // ----- The session -----

  datatype StepStatus = Pending | Active | Complete | Blocked

  datatype PlanStep = PlanStep(id: string, description: string, status: StepStatus, studentAuthored: bool)

  datatype PlanView = PlanView(
    steps: seq<PlanStep>, approved: bool, concerns: seq<string>, acknowledgements: seq<string>, summary: Option<string>)

  datatype UnderstandingView = UnderstandingView(messages: seq<string>, ready: bool)

  datatype ImplementationView = ImplementationView(filesChanged: seq<string>, actions: seq<string>)

  datatype VerificationView = VerificationView(strategy: Option<string>, commands: seq<string>, passed: Option<bool>)

  datatype ReflectionView = ReflectionView(messages: seq<string>, complete: bool)

  datatype Question = Question(difficulty: string, topic: string, answering: bool)

  datatype Routing = Routing(intent: string, route: string, projectContext: string)

  datatype Session = Session(
    stage: Stage, learnMode: Option<bool>, question: Option<Question>, routing: Option<Routing>, goal: Option<string>,
    understanding: UnderstandingView, plan: PlanView, implementation: ImplementationView,
    verification: VerificationView, reflection: ReflectionView, createdAt: int, updatedAt: int)

  /** createLearningSession */
  function Created(now: int): Session {
    Session(Understand, None, None, None, None, UnderstandingView([], false), PlanView([], false, [], [], None),
            ImplementationView([], []), VerificationView(None, [], None), ReflectionView([], false), now, now)
  }

  datatype Update = Update(
    currentStage: Stage, readyForNextStage: bool, goalSummary: Option<string>, understandingReady: Option<bool>,
    planSummary: Option<string>, studentApprovedPlan: Option<bool>, requestedNextStage: Option<Stage>,
    verificationStrategy: Option<string>, verificationPassed: Option<bool>, reflectionComplete: Option<bool>)

  datatype Rejection =
    | StaleUpdate | AgentApproval | NotReady(stage: Stage) | VerifyMustProceed(stage: Stage)
    | IllegalTransition(from: Stage, to: Stage) | OutsidePlan | EmptyStep | PlanAlreadyApproved
    | NoStudentStep | NoAcknowledgement

  // ----- The student plan -----

  predicate HasStudentAuthoredSteps(steps: seq<PlanStep>) {
    exists i :: 0 <= i < |steps| && steps[i].studentAuthored && Trim(steps[i].description) != ""
  }

  function NewStep(steps: seq<PlanStep>, description: string): PlanStep {
    PlanStep("step-" + Decimal(|steps| + 1), Trim(description), Pending, true)
  }

  function AddStep(v: Session, description: string, now: int): Result<Session, Rejection> {
    if v.stage != Plan then Err(OutsidePlan)
    else if Trim(description) == "" then Err(EmptyStep)
    else if v.plan.approved then Err(PlanAlreadyApproved)
    else Ok(v.(plan := v.plan.(steps := v.plan.steps + [NewStep(v.plan.steps, description)]), updatedAt := now))
  }

  function Approve(v: Session, acknowledgement: string, now: int): Result<Session, Rejection> {
    if v.stage != Plan then Err(OutsidePlan)
    else if !HasStudentAuthoredSteps(v.plan.steps) then Err(NoStudentStep)
    else if Trim(acknowledgement) == "" then Err(NoAcknowledgement)
    else Ok(v.(plan := v.plan.(approved := true, acknowledgements := v.plan.acknowledgements + [Trim(acknowledgement)]),
        updatedAt := now))
  }

  // ----- Model-reported updates -----

  /** A reported text replaces the old one only if something is left after trimming. */
  function Reported(text: Option<string>, current: Option<string>): Option<string> {
    if text.Some? && Trim(text.value) != "" then Some(Trim(text.value)) else current
  }

  function ReportedFlag<T>(flag: Option<T>, current: T): T {
    flag.GetOr(current)
  }

  /** The candidate session: the reported progress on a copy of the session. */
  function Candidate(v: Session, u: Update): Session {
    v.(goal := Reported(u.goalSummary, v.goal),
       understanding := v.understanding.(ready := ReportedFlag(u.understandingReady, v.understanding.ready)),
       plan := v.plan.(summary := Reported(u.planSummary, v.plan.summary),
                       approved := if u.studentApprovedPlan == Some(false) then false else v.plan.approved),
       verification := v.verification.(strategy := Reported(u.verificationStrategy, v.verification.strategy),
                                       passed := if u.verificationPassed.Some? then u.verificationPassed
                                           else v.verification.passed),
       reflection := v.reflection.(complete := ReportedFlag(u.reflectionComplete, v.reflection.complete)))
  }

  predicate Truthy(text: Option<string>) {
    text.Some? && text.value != ""
  }

  predicate ReadyToLeave(v: Session, reflectionRequired: bool) {
    match v.stage
    case Understand => Truthy(v.goal) && v.understanding.ready
    case Plan => Truthy(v.plan.summary) && HasStudentAuthoredSteps(v.plan.steps) && v.plan.approved
    case Implement => true
    case Review => true
    case Verify => v.verification.passed.Some?
    case Reflect => !reflectionRequired || v.reflection.complete
  }

  function DefaultNextStage(stage: Stage, passed: Option<bool>): Stage
    requires stage != Reflect
  {
    match stage
    case Understand => Plan
    case Plan => Implement
    case Implement => Review
    case Review => Verify
    case Verify => if passed == Some(true) then Reflect else Implement
  }

  function NextStageFor(stage: Stage, requested: Option<Stage>, passed: Option<bool>): Result<Option<Stage>,
                        Rejection> {
    if stage == Reflect then
      if requested.Some? then Err(IllegalTransition(stage, requested.value)) else Ok(None)
    else
      var next := requested.GetOr(DefaultNextStage(stage, passed));
      if stage == Verify && next != DefaultNextStage(stage, passed)
          then Err(VerifyMustProceed(DefaultNextStage(stage, passed)))
      else Ok(Some(next))
  }

  predicate ReturnsToPlan(from: Stage, to: Stage) {
    to == Plan && from != Understand
  }

  predicate StartsOver(from: Stage, to: Stage) {
    (from == Plan && to == Implement) || (from == Implement && to == Review)
  }

  /** prepareStageEntry and the stage change. */
  function Enter(v: Session, to: Stage): Session {
    v.(stage := to,
       plan := if ReturnsToPlan(v.stage, to) then v.plan.(approved := false, summary := None) else v.plan,
       verification := if StartsOver(v.stage, to) then v.verification.(passed := None, commands := [])
           else v.verification,
       reflection := if StartsOver(v.stage, to) then v.reflection.(complete := false) else v.reflection)
  }

  datatype Applied = Applied(session: Session, entered: Option<Stage>)

  /** The stage decision on the candidate: nothing to do, a refusal, or entry to the next stage. */
  function Advance(candidate: Session, u: Update, reflectionRequired: bool): Result<Applied, Rejection> {
    if !u.readyForNextStage then Ok(Applied(candidate, None))
    else if !ReadyToLeave(candidate, reflectionRequired) then Err(NotReady(candidate.stage))
    else
      var next := NextStageFor(candidate.stage, u.requestedNextStage, candidate.verification.passed);
      if next.Err? then Err(next.error)
      else if next.value.None? then Ok(Applied(candidate, None))
      else if !CanTransition(candidate.stage, next.value.value)
          then Err(IllegalTransition(candidate.stage, next.value.value))
      else Ok(Applied(Enter(candidate, next.value.value), next.value))
  }

  function Apply(v: Session, u: Update, reflectionRequired: bool, now: int): Result<Applied, Rejection> {
    if u.currentStage != v.stage then Err(StaleUpdate)
    else if u.studentApprovedPlan == Some(true) then Err(AgentApproval)
    else
      var r := Advance(Candidate(v, u), u, reflectionRequired);
      if r.Err? then Err(r.error) else Ok(Applied(r.value.session.(updatedAt := now), r.value.entered))
  }

  // ----- Tools -----

  /** packages/policy/src/tool-policy.ts, TOOLS_BY_STAGE */
  function ToolsByStage(stage: Stage): seq<string> {
    match stage
    case Understand => ["read", "grep", "find", "ls", "bash", "student_ask", "learning_state"]
    case Plan => ["read", "grep", "find", "ls", "bash", "student_ask", "learning_state", "student_plan"]
    case Implement => ["bash", "read", "grep", "find", "ls", "edit", "write", "student_ask", "learning_state",
        "student_plan"]
    case Review => ["read", "grep", "find", "ls", "bash", "student_ask", "learning_state"]
    case Verify => ["read", "grep", "find", "ls", "bash", "edit", "write", "student_ask", "learning_state"]
    case Reflect => ["read", "grep", "find", "ls", "bash", "student_ask", "learning_state", "save_to_desktop"]
  }

  datatype ToolPolicy = ToolPolicy(allowed: Stage -> seq<string>, canUse: (Stage, string) -> bool)

  const TOOL_POLICY := ToolPolicy(s => ToolsByStage(s), (s, tool) => tool in ToolsByStage(s))

  const CODEBASE_MODEL := "codebase_model"

  predicate Practising(v: Session) { v.question.Some? }

  function PractiseFilter(policy: ToolPolicy, stage: Stage): string -> bool {
    tool => tool in ["read", "grep", "find", "ls", "bash"] && policy.canUse(stage, tool)
  }

  function AllowedTools(policy: ToolPolicy, v: Session): seq<string> {
    var allowed := policy.allowed(v.stage);
    if Practising(v) then Filter(PractiseFilter(policy, v.stage), allowed) + [CODEBASE_MODEL]
    else if v.learnMode == Some(true) && "read" in allowed then allowed + [CODEBASE_MODEL]
    else allowed
  }

  predicate CanUseTool(policy: ToolPolicy, v: Session, tool: string) {
    if Practising(v) || tool == CODEBASE_MODEL then tool in AllowedTools(policy, v) else policy.canUse(v.stage, tool)
  }

  predicate Agrees(policy: ToolPolicy, v: Session, tool: string) {
    CanUseTool(policy, v, tool) <==> tool in AllowedTools(policy, v)
  }

  predicate ListsWhatItAllows(policy: ToolPolicy, stage: Stage, tool: string) {
    policy.canUse(stage, tool) <==> tool in policy.allowed(stage)
  }

  /**
   canUseTool and getAllowedTools agree in every state for every tool exactly when the policy
   itself lists what it allows; the repository model is exempt, as canUseTool looks it up.
   */
  lemma ToolsAgreeExactly(policy: ToolPolicy)
    ensures (forall v, tool :: Agrees(policy, v, tool)) <==>
            (forall stage, tool :: tool != CODEBASE_MODEL ==> ListsWhatItAllows(policy, stage, tool))
  {
    if forall v, tool :: Agrees(policy, v, tool) {
      forall stage, tool | tool != CODEBASE_MODEL ensures ListsWhatItAllows(policy, stage, tool) {
        assert Agrees(policy, Created(0).(stage := stage), tool);
      }
    }
    if forall stage, tool :: tool != CODEBASE_MODEL ==> ListsWhatItAllows(policy, stage, tool) {
      forall v, tool ensures Agrees(policy, v, tool) {
        assert tool != CODEBASE_MODEL ==> ListsWhatItAllows(policy, v.stage, tool);
      }
    }
  }

  lemma DefaultToolsAgree(v: Session, tool: string)
    ensures Agrees(TOOL_POLICY, v, tool)
  {
    forall stage, t | t != CODEBASE_MODEL ensures ListsWhatItAllows(TOOL_POLICY, stage, t) {}
    ToolsAgreeExactly(TOOL_POLICY);
  }

  /** Files can be changed only while implementing or verifying, and never during question practice. */
  lemma EditingStages(v: Session, tool: string)
    requires tool == "edit" || tool == "write"
    ensures tool in AllowedTools(TOOL_POLICY, v) <==> !Practising(v) && (v.stage == Implement || v.stage == Verify)
  {
    DefaultToolsAgree(v, tool);
    if Practising(v) {
      FilterMembers(PractiseFilter(TOOL_POLICY, v.stage), ToolsByStage(v.stage));
      assert tool !in ["read", "grep", "find", "ls", "bash"];
    }
  }
}
