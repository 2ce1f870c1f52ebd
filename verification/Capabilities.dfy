/**
 Thinking levels, what a resolved policy permits, and the session limits
 (packages/policy/src/thinking.ts, capability-policy.ts, capability-runtime.ts).
 */
module Capabilities {
  import opened Common
  import opened Resolution
  import opened PolicyOrder

  /** levelMap has no entry where the map leaves a level undefined, and None where it says null. */
  datatype Model = Model(provider: string, id: string, reasoning: bool, levelMap: map<string, Option<string>>)

  function Supports(model: Model): string -> bool {
    level => !(level in model.levelMap && model.levelMap[level].None?)
             && ((level == "xhigh" || level == "max") ==> level in model.levelMap)
  }

  function SupportedThinkingLevels(model: Model): seq<string> {
    if !model.reasoning then ["off"] else Filter(Supports(model), THINKING_LEVELS)
  }

  /** The requested level, else the nearest available one above it, else the nearest below. */
  ghost predicate Resolved(available: seq<string>, requested: nat, level: string)
    requires requested < |THINKING_LEVELS|
  {
    if exists i :: requested <= i < |THINKING_LEVELS| && THINKING_LEVELS[i] in available then
      exists i :: requested <= i < |THINKING_LEVELS| && level == THINKING_LEVELS[i] && level in available
                  && forall j :: requested <= j < i ==> THINKING_LEVELS[j] !in available
    else if exists i :: 0 <= i < requested && THINKING_LEVELS[i] in available then
      exists i :: 0 <= i < requested && level == THINKING_LEVELS[i] && level in available
                  && forall j :: i < j < requested ==> THINKING_LEVELS[j] !in available
    else level == "off"
  }

  method ResolveThinkingLevel(model: Model, requested: nat) returns (level: string)
    requires requested < |THINKING_LEVELS|
    ensures Resolved(SupportedThinkingLevels(model), requested, level)
  {
    var available := SupportedThinkingLevels(model);
    if THINKING_LEVELS[requested] in available { return THINKING_LEVELS[requested]; }
    var index := requested;
    while index < |THINKING_LEVELS|
      invariant requested <= index <= |THINKING_LEVELS|
      invariant forall j :: requested <= j < index ==> THINKING_LEVELS[j] !in available
    {
      if THINKING_LEVELS[index] in available { return THINKING_LEVELS[index]; }
      index := index + 1;
    }
    var below: int := requested - 1;
    while below >= 0
      invariant -1 <= below < requested
      invariant forall j :: below < j < requested ==> THINKING_LEVELS[j] !in available
    {
      if THINKING_LEVELS[below] in available { return THINKING_LEVELS[below]; }
      below := below - 1;
    }
    return "off";
  }

  // ----- What a policy permits -----

  datatype Limits = Limits(minutes: Option<real>, turns: Option<real>, tokens: Option<real>, cost: Option<real>,
      tutoringTurns: Option<real>)

  datatype Capability = Capability(models: seq<string>, reasoningLevels: seq<string>, imageUploads: bool,
      limits: Limits)

  function Cap(settings: Settings, path: string): Option<real> {
    if path in settings && settings[path].Limit? then settings[path].cap else None
  }

  function Values(settings: Settings, path: string): seq<string> {
    if path in settings && settings[path].Choices? then settings[path].values else []
  }

  /** The part of the effective settings the runtime guard consumes. */
  function FromSettings(settings: Settings): Capability {
    Capability(Values(settings, MODELS), Values(settings, REASONING),
               "imageUploads" in settings && settings["imageUploads"] == Flag(true),
               Limits(Cap(settings, "limits.minutes"), Cap(settings, "limits.turns"), Cap(settings, "limits.tokens"),
                      Cap(settings, "limits.cost"), Cap(settings, "limits.tutoringTurns")))
  }

  function AllowedReasoningLevels(policy: Capability, model: Model): seq<string> {
    Filter(Within(policy.reasoningLevels), SupportedThinkingLevels(model))
  }

  function ModelKey(model: Model): string {
    model.provider + "/" + model.id
  }

  predicate ModelAllowed(policy: Capability, model: Model) {
    (policy.models == [] || ModelKey(model) in policy.models) && AllowedReasoningLevels(policy, model) != []
  }

  // ----- Session limits -----

  datatype Counters = Counters(
    startedAt: int, turns: int, tutoringTurns: int, tokens: int, cost: real, unavailable: bool,
        agentBlocked: Option<string>)

  datatype LimitReason =
    | TimeLimit | ResponseLimit | HostBlock(text: string) | Unavailable | TokenLimit | CostLimit | TutoringLimit

  predicate Reached(value: real, cap: Option<real>) {
    cap.Some? && value >= cap.value
  }

  function AgentLimitReached(l: Limits, c: Counters, now: int): Option<LimitReason> {
    if l.minutes.Some? && (now - c.startedAt) as real >= l.minutes.value * 60_000.0 then Some(TimeLimit)
    else if Reached(c.turns as real, l.turns) then Some(ResponseLimit)
    else if c.agentBlocked.Some? then Some(HostBlock(c.agentBlocked.value)) else None
  }

  function CostLimitReached(l: Limits, c: Counters): Option<LimitReason> {
    if c.unavailable then Some(Unavailable)
    else if Reached(c.tokens as real, l.tokens) then Some(TokenLimit)
    else if Reached(c.cost, l.cost) then Some(CostLimit) else None
  }

  /** Reasons are texts; only the host's block could be the empty text, which counts as false. */
  predicate Truthy(reason: Option<LimitReason>) {
    reason.Some? && (reason.value.HostBlock? ==> reason.value.text != "")
  }

  function TutoringLimitReached(l: Limits, c: Counters, now: int): Option<LimitReason> {
    if Reached(c.tutoringTurns as real, l.tutoringTurns) && Truthy(AgentLimitReached(l, c, now))
        then Some(TutoringLimit) else None
  }

  function LimitReached(l: Limits, c: Counters, now: int): Option<LimitReason> {
    if CostLimitReached(l, c).Some? then CostLimitReached(l, c) else TutoringLimitReached(l, c, now)
  }

  datatype Phase = AgentPhase | TutoringOnly | Stopped

  function PhaseOf(l: Limits, c: Counters, now: int): Phase {
    if LimitReached(l, c, now).Some? then Stopped
    else if AgentLimitReached(l, c, now).Some? then TutoringOnly else AgentPhase
  }

  function Rank(p: Phase): nat {
    match p case AgentPhase => 0 case TutoringOnly => 1 case Stopped => 2
  }

  /** Counters and clock only grow, and a host block stays: no reset in between. */
  predicate Later(c: Counters, now: int, c': Counters, now': int) {
    && c'.startedAt == c.startedAt && now <= now'
    && c.turns <= c'.turns && c.tutoringTurns <= c'.tutoringTurns && c.tokens <= c'.tokens && c.cost <= c'.cost
    && (c.unavailable ==> c'.unavailable)
    && (c.agentBlocked.Some? ==> c'.agentBlocked == c.agentBlocked)
  }

  lemma AgentLimitPersists(l: Limits, c: Counters, now: int, c': Counters, now': int)
    requires Later(c, now, c', now') && AgentLimitReached(l, c, now).Some?
    ensures AgentLimitReached(l, c', now').Some?
    ensures Truthy(AgentLimitReached(l, c, now)) ==> Truthy(AgentLimitReached(l, c', now'))
  {
  }

  /** The session only moves from agent execution to tutoring to stopped. */
  lemma PhaseOnlyAdvances(l: Limits, c: Counters, now: int, c': Counters, now': int)
    requires Later(c, now, c', now')
    ensures Rank(PhaseOf(l, c, now)) <= Rank(PhaseOf(l, c', now'))
  {
    if AgentLimitReached(l, c, now).Some? { AgentLimitPersists(l, c, now, c', now'); }
  }

  // ----- More layers, fewer permissions -----

  predicate CapTighter(a: Option<real>, b: Option<real>) {
    a.Some? ==> b.Some? && b.value <= a.value
  }

  predicate LimitsTighter(a: Limits, b: Limits) {
    && CapTighter(a.minutes, b.minutes) && CapTighter(a.turns, b.turns) && CapTighter(a.tokens, b.tokens)
    && CapTighter(a.cost, b.cost) && CapTighter(a.tutoringTurns, b.tutoringTurns)
  }

  lemma TighterLimitsReachSooner(a: Limits, b: Limits, c: Counters, now: int)
    requires LimitsTighter(a, b)
    ensures AgentLimitReached(a, c, now).Some? ==> AgentLimitReached(b, c, now).Some?
    ensures Truthy(AgentLimitReached(a, c, now)) ==> Truthy(AgentLimitReached(b, c, now))
    ensures CostLimitReached(a, c).Some? ==> CostLimitReached(b, c).Some?
    ensures TutoringLimitReached(a, c, now).Some? ==> TutoringLimitReached(b, c, now).Some?
    ensures LimitReached(a, c, now).Some? ==> LimitReached(b, c, now).Some?
  {
  }

  lemma NarrowerPolicyPermitsLess(a: Capability, b: Capability, model: Model)
    requires forall value :: Permits(MODELS, b.models, value) ==> Permits(MODELS, a.models, value)
    requires forall value :: Permits(REASONING, b.reasoningLevels, value) ==>
               Permits(REASONING, a.reasoningLevels, value)
    ensures forall level :: level in AllowedReasoningLevels(b, model) ==> level in AllowedReasoningLevels(a, model)
    ensures ModelAllowed(b, model) ==> ModelAllowed(a, model)
  {
    var supported := SupportedThinkingLevels(model);
    FilterMembers(Within(a.reasoningLevels), supported);
    FilterMembers(Within(b.reasoningLevels), supported);
    forall level | level in AllowedReasoningLevels(b, model) ensures level in AllowedReasoningLevels(a, model) {
      assert Permits(REASONING, b.reasoningLevels, level);
      assert REASONING != MODELS;
    }
    if ModelAllowed(b, model) {
      assert Permits(MODELS, b.models, ModelKey(model));
      assert AllowedReasoningLevels(b, model)[0] in AllowedReasoningLevels(a, model);
    }
  }

  /** The settings written by a successful merge over these layers. */
  ghost predicate Merged(delegated: seq<string>, layers: seq<Layer>, settings: Settings)
    requires layers != []
  {
    forall path :: path in ALL_PATHS ==>
      && path in settings
      && Trace(delegated, path, layers, StartEntry(layers, path)).Ok?
      && settings[path] == Trace(delegated, path, layers, StartEntry(layers, path)).value.setting
  }

  lemma MergedPathRestricts(delegated: seq<string>, path: string, fewer: seq<Layer>, more: seq<Layer>, a: Settings,
                            b: Settings)
    requires fewer != [] && more != [] && Among(fewer, more) && path in ALL_PATHS
    requires Merged(delegated, fewer, a) && Merged(delegated, more, b)
    ensures path in a && path in b && Restricts(path, a[path], b[path])
    ensures PathValue(path, fewer, a[path])
  {
    MergeRefinesMeet(delegated, path, fewer);
    MergeRefinesMeet(delegated, path, more);
    MoreLayersOnlyRestrict(delegated, path, fewer, more, a[path], b[path]);
  }

  lemma PathNames()
    ensures MODELS in ALL_PATHS && REASONING in ALL_PATHS
    ensures forall path :: path in LIMIT_PATHS ==> path in ALL_PATHS
  {
    ListDefaults();
    forall path | path in LIMIT_PATHS ensures path in ALL_PATHS {
      var i :| 0 <= i < |LIMIT_PATHS| && LIMIT_PATHS[i] == path;
      assert ALL_PATHS[13 + i] == path;
    }
  }

  lemma CapOfMerged(delegated: seq<string>, path: string, fewer: seq<Layer>, more: seq<Layer>, a: Settings, b: Settings)
    requires fewer != [] && more != [] && Among(fewer, more) && path in ALL_PATHS
    requires Merged(delegated, fewer, a) && Merged(delegated, more, b)
    ensures CapTighter(Cap(a, path), Cap(b, path))
  {
    MergedPathRestricts(delegated, path, fewer, more, a, b);
  }

  lemma LimitsOfMerged(delegated: seq<string>, fewer: seq<Layer>, more: seq<Layer>, a: Settings, b: Settings)
    requires fewer != [] && more != [] && Among(fewer, more)
    requires Merged(delegated, fewer, a) && Merged(delegated, more, b)
    ensures LimitsTighter(FromSettings(a).limits, FromSettings(b).limits)
  {
    PathNames();
    forall i | 0 <= i < |LIMIT_PATHS| ensures CapTighter(Cap(a, LIMIT_PATHS[i]), Cap(b, LIMIT_PATHS[i])) {
      CapOfMerged(delegated, LIMIT_PATHS[i], fewer, more, a, b);
    }
    assert LIMIT_PATHS[0] == "limits.minutes" && LIMIT_PATHS[1] == "limits.turns" && LIMIT_PATHS[2] == "limits.tokens"
           && LIMIT_PATHS[3] == "limits.cost" && LIMIT_PATHS[4] == "limits.tutoringTurns";
  }

  lemma ListsOfMerged(delegated: seq<string>, path: string, fewer: seq<Layer>, more: seq<Layer>, a: Settings,
                      b: Settings, value: string)
    requires fewer != [] && more != [] && Among(fewer, more)
    requires path == MODELS || path == REASONING
    requires Merged(delegated, fewer, a) && Merged(delegated, more, b)
    ensures Permits(path, Values(b, path), value) ==> Permits(path, Values(a, path), value)
  {
    PathNames();
    ListDefaults();
    MergedPathRestricts(delegated, path, fewer, more, a, b);
  }

  /** If the policy with the extra layers resolves, so does the one without them. */
  lemma FewerResolves(delegated: seq<string>, fewer: seq<Layer>, more: seq<Layer>)
    requires fewer != [] && more != [] && Among(fewer, more) && Resolves(ALL_PATHS, delegated, more)
    ensures Resolves(ALL_PATHS, delegated, fewer)
  {
    forall i | 0 <= i < |fewer| ensures ValidVersion(fewer[i].version) {
      assert fewer[i] in more;
    }
    forall path | path in ALL_PATHS ensures Trace(delegated, path, fewer, StartEntry(fewer, path)).Ok? {
      MergeRefinesMeet(delegated, path, more);
      FewerLayersResolve(delegated, path, fewer, more);
      MergeRefinesMeet(delegated, path, fewer);
    }
  }

  /**
   End to end: if the policy with the extra layers resolves, so does the one without them, and then any model and
   reasoning level allowed with them is allowed without them, and any limit reached without them is reached with them.
   */
  lemma AddingLayersOnlyRestricts(delegated: seq<string>, fewer: seq<Layer>, more: seq<Layer>, a: Settings, b: Settings,
                                  model: Model, c: Counters, now: int)
    requires fewer != [] && more != [] && Among(fewer, more) && Resolves(ALL_PATHS, delegated, more)
    ensures Resolves(ALL_PATHS, delegated, fewer)
    ensures Merged(delegated, fewer, a) && Merged(delegated, more, b) ==>
              OnlyRestricts(FromSettings(a), FromSettings(b), model, c, now)
  {
    FewerResolves(delegated, fewer, more);
    if Merged(delegated, fewer, a) && Merged(delegated, more, b) {
      MergedOnlyRestricts(delegated, fewer, more, a, b, model, c, now);
    }
  }

  /** Whatever q allows p allows, and whatever limit p reaches q reaches. */
  ghost predicate OnlyRestricts(p: Capability, q: Capability, model: Model, c: Counters, now: int) {
    && (ModelAllowed(q, model) ==> ModelAllowed(p, model))
    && (forall level :: level in AllowedReasoningLevels(q, model) ==> level in AllowedReasoningLevels(p, model))
    && (AgentLimitReached(p.limits, c, now).Some? ==> AgentLimitReached(q.limits, c, now).Some?)
    && (CostLimitReached(p.limits, c).Some? ==> CostLimitReached(q.limits, c).Some?)
    && (TutoringLimitReached(p.limits, c, now).Some? ==> TutoringLimitReached(q.limits, c, now).Some?)
  }

  lemma MergedOnlyRestricts(delegated: seq<string>, fewer: seq<Layer>, more: seq<Layer>, a: Settings, b: Settings,
                            model: Model, c: Counters, now: int)
    requires fewer != [] && more != [] && Among(fewer, more)
    requires Merged(delegated, fewer, a) && Merged(delegated, more, b)
    ensures OnlyRestricts(FromSettings(a), FromSettings(b), model, c, now)
  {
    var p, q := FromSettings(a), FromSettings(b);
    forall value ensures Permits(MODELS, q.models, value) ==> Permits(MODELS, p.models, value) {
      ListsOfMerged(delegated, MODELS, fewer, more, a, b, value);
    }
    forall value ensures Permits(REASONING, q.reasoningLevels, value) ==> Permits(REASONING, p.reasoningLevels, value) {
      ListsOfMerged(delegated, REASONING, fewer, more, a, b, value);
    }
    NarrowerPolicyPermitsLess(p, q, model);
    LimitsOfMerged(delegated, fewer, more, a, b);
    TighterLimitsReachSooner(p.limits, q.limits, c, now);
  }
}
