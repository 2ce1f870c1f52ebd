/**
 The guarded session (packages/policy/src/capability-runtime.ts): the setters and the prompt of a
 session, wrapped so that every prompt that gets through is permitted by the policy in force.
 */
module CapabilityGuard {
  import opened Common
  import opened Resolution
  import opened Capabilities

  const DEFAULT_CAPABILITY := Capability([], THINKING_LEVELS, true, Limits(None, None, None, None, None))

  class CapabilityState {
    var effective: Option<Capability>
    /** Whether the effective policy has an organization layer. */
    var organization: bool
    var counters: Counters
    var blocked: map<string, nat>

    constructor (now: int)
      ensures effective == None && !organization && blocked == map[]
      ensures counters == Counters(now, 0, 0, 0, 0.0, false, None)
    {
      effective, organization, blocked := None, false, map[];
      counters := Counters(now, 0, 0, 0, 0.0, false, None);
    }

    function Settings(): Capability reads this { effective.GetOr(DEFAULT_CAPABILITY) }

    method Select(policy: Option<Capability>, hasOrganization: bool, now: int)
      modifies this
      ensures effective == policy && organization == hasOrganization && blocked == map[]
      ensures counters == Counters(now, 0, 0, 0, 0.0, false, None)
    {
      effective, organization, blocked := policy, hasOrganization, map[];
      counters := Counters(now, 0, 0, 0, 0.0, false, None);
    }

    method Block(capability: string)
      modifies this`blocked
      ensures blocked == old(blocked)[capability := (if capability in old(blocked) then old(blocked)[capability] else 0)
                + 1]
    {
      blocked := blocked[capability := (if capability in blocked then blocked[capability] else 0) + 1];
    }

    /** An organization that approves no model. */
    predicate NoModelApproved() reads this { effective.Some? && organization && Settings().models == [] }
  }

  /** What was in force when a prompt reached the session. */
  datatype Sent = Sent(policy: Capability, counters: Counters, now: int, model: Option<Model>, level: string)

  /** No limit is reached and, if a model is set, it is allowed and its level permitted. */
  predicate Permitted(sent: Sent) {
    && LimitReached(sent.policy.limits, sent.counters, sent.now).None?
    && (sent.model.Some? ==>
          ModelAllowed(sent.policy, sent.model.value)
              && sent.level in AllowedReasoningLevels(sent.policy, sent.model.value))
  }

  /** The underlying session: setters store what they are given. */
  class AgentSession {
    var model: Option<Model>
    var thinkingLevel: string
    ghost var sent: seq<Sent>

    constructor (level: string)
      ensures model == None && thinkingLevel == level && sent == []
    {
      model, thinkingLevel, sent := None, level, [];
    }

    method SetModel(m: Model)
      modifies this`model
      ensures model == Some(m)
    {
      model := Some(m);
    }

    method SetThinkingLevel(level: string)
      modifies this`thinkingLevel
      ensures thinkingLevel == level
    {
      thinkingLevel := level;
    }

    method Prompt(state: CapabilityState, now: int)
      modifies this`sent
      ensures sent == old(sent) + [Sent(state.Settings(), state.counters, now, model, thinkingLevel)]
    {
      sent := sent + [Sent(state.Settings(), state.counters, now, model, thinkingLevel)];
    }
  }

  datatype Refusal =
    | LevelNotEnabled | ModelNotValidated | NoApprovedModel | ModelNotEnabled | LimitHit(reason: LimitReason)
    | ImagesDisabled

  class GuardedSession {
    const session: AgentSession
    const state: CapabilityState

    constructor (session: AgentSession, state: CapabilityState)
      ensures this.session == session && this.state == state
    {
      this.session, this.state := session, state;
    }

    /** Every prompt that ever reached the real session was permitted. */
    ghost predicate Safe() reads this, session { forall sent :: sent in session.sent ==> Permitted(sent) }

    /** The model that is set, if any, is allowed at its level under the policy in force. */
    predicate LevelPermitted() reads this, session, state {
      session.model.Some? ==>
        && ModelAllowed(state.Settings(), session.model.value)
        && session.thinkingLevel in AllowedReasoningLevels(state.Settings(), session.model.value)
    }

    /** After the model check there is a first permitted level, and falling back to it permits the session. */
    method FallBack(m: Model)
      requires ModelAllowed(state.Settings(), m)
      modifies session`thinkingLevel
      ensures session.thinkingLevel in AllowedReasoningLevels(state.Settings(), m)
      ensures old(session.thinkingLevel) in AllowedReasoningLevels(state.Settings(), m) ==>
                session.thinkingLevel == old(session.thinkingLevel)
      ensures old(session.thinkingLevel) !in AllowedReasoningLevels(state.Settings(), m) ==>
                session.thinkingLevel == AllowedReasoningLevels(state.Settings(), m)[0]
    {
      var permitted := AllowedReasoningLevels(state.Settings(), m);
      if session.thinkingLevel !in permitted { session.SetThinkingLevel(permitted[0]); }
    }

    method SetThinkingLevel(level: string) returns (refused: Option<Refusal>)
      requires Safe()
      modifies session`thinkingLevel, state`blocked
      ensures Safe() && (old(LevelPermitted()) ==> LevelPermitted())
      ensures refused.None? <==>
                session.model.None? || level in AllowedReasoningLevels(state.Settings(), session.model.value)
      ensures session.thinkingLevel == if refused.None? then level else old(session.thinkingLevel)
    {
      if session.model.Some? && level !in AllowedReasoningLevels(state.Settings(), session.model.value) {
        state.Block("reasoningLevels");
        return Some(LevelNotEnabled);
      }
      session.SetThinkingLevel(level);
      return None;
    }

    /** An accepted model leaves the session permitted; a refused one leaves model and level as they were. */
    method SetModel(m: Model, validated: bool) returns (refused: Option<Refusal>)
      requires Safe()
      modifies session`model, session`thinkingLevel, state`blocked
      ensures Safe()
      ensures refused.None? <==> validated && !old(state.NoModelApproved()) && ModelAllowed(state.Settings(), m)
      ensures refused.None? ==> session.model == Some(m) && LevelPermitted()
      ensures refused.Some? ==>
                session.model == old(session.model) && session.thinkingLevel == old(session.thinkingLevel)
    {
      if !validated { return Some(ModelNotValidated); }
      if state.NoModelApproved() { state.Block("models"); return Some(NoApprovedModel); }
      if !ModelAllowed(state.Settings(), m) { state.Block("models"); return Some(ModelNotEnabled); }
      session.SetModel(m);
      FallBack(m);
      return None;
    }

    /**
     A prompt reaches the session exactly when the model validates, no limit is reached, the
     organization approves some model, the model that is set is allowed, and images are absent or
     allowed; it is then the only new prompt, and a permitted one.
     */
    method Prompt(validated: bool, images: bool, now: int) returns (refused: Option<Refusal>)
      requires Safe()
      modifies session`thinkingLevel, session`sent, state`blocked
      ensures Safe() && (old(LevelPermitted()) ==> LevelPermitted())
      ensures refused.None? <==>
                && validated && LimitReached(state.Settings().limits, state.counters, now).None?
                    && !old(state.NoModelApproved())
                && (session.model.Some? ==> ModelAllowed(state.Settings(), session.model.value))
                && (images ==> state.Settings().imageUploads)
      ensures refused.None? ==>
                session.sent == old(session.sent)
                    + [Sent(state.Settings(), state.counters, now, session.model, session.thinkingLevel)]
      ensures refused.Some? ==> session.sent == old(session.sent)
    {
      if !validated { return Some(ModelNotValidated); }
      var reason := LimitReached(state.Settings().limits, state.counters, now);
      if reason.Some? { state.Block("sessionLimits"); return Some(LimitHit(reason.value)); }
      if state.NoModelApproved() { state.Block("models"); return Some(NoApprovedModel); }
      if session.model.Some? {
        if !ModelAllowed(state.Settings(), session.model.value) { state.Block("models"); return Some(ModelNotEnabled); }
        FallBack(session.model.value);
      }
      if images && !state.Settings().imageUploads { state.Block("imageUploads"); return Some(ImagesDisabled); }
      session.Prompt(state, now);
      return None;
    }
  }
}
