/**
 The layered merge of capability policies (packages/policy/src/resolution.ts): nested loops that
 write settings in place, and what the resolved policy is, path by path.
 */
module Resolution {
  import opened Common

  /** A JavaScript value as a policy patch may hold it; an absent entry stands for undefined. */
  datatype Json =
    | Null | Bool(b: bool) | Number(x: real) | NonFinite | Text(s: string) | Array(items: seq<Json>) | Object

  datatype Setting = Flag(on: bool) | Limit(cap: Option<real>) | Choices(values: seq<string>)

  /** Settings and patches by dotted path, as read and write address them. */
  type Settings = map<string, Setting>
  type Patch = map<string, Json>

  datatype Scope = Platform | Organization | Class | Project | SessionScope

  datatype Layer = Layer(scope: Scope, version: real, settings: Patch)

  datatype Reason = Default | Selected | Disabled | Capped | Restricted

  datatype Provenance = Provenance(scope: Scope, version: real, reason: Reason)

  datatype PolicyError =
    | InvalidVersion | NotDelegated(path: string) | InvalidValue(path: string) | NothingAllowed(path: string)

  const ON_PATHS: seq<string> := ["fileEditing", "terminal", "dependencyInstallation", "internet", "desktopExport",
      "imageUploads",
    "fileUploads", "reflection", "accessibility.dictation", "accessibility.cloudDictation"]
  const OFF_PATHS: seq<string> := ["accessibility.readAloud", "accessibility.simplifiedVocabulary",
      "accessibility.readableFormatting"]
  const LIMIT_PATHS: seq<string> := ["limits.minutes", "limits.turns", "limits.tokens", "limits.cost",
      "limits.tutoringTurns"]
  const MODELS := "models"
  const REASONING := "reasoningLevels"
  const ALL_PATHS: seq<string> := ON_PATHS + OFF_PATHS + LIMIT_PATHS + [MODELS, REASONING]
  const THINKING_LEVELS: seq<string> := ["off", "minimal", "low", "medium", "high", "xhigh", "max"]
  const MAX_SAFE_INTEGER := 9007199254740991.0

  /** DEFAULT_CAPABILITY_POLICY */
  function DefaultSetting(path: string): Setting {
    if path in ON_PATHS then Flag(true)
    else if path in OFF_PATHS then Flag(false)
    else if path in LIMIT_PATHS then Limit(None)
    else if path == REASONING then Choices(THINKING_LEVELS)
    else Choices([])
  }

  predicate Integral(x: real) {
    x == x.Floor as real
  }

  predicate ValidVersion(version: real) {
    Integral(version) && 1.0 <= version <= MAX_SAFE_INTEGER
  }

  predicate ValidLimit(path: string, x: real) {
    0.0 < x <= 1_000_000_000.0 && (path != "limits.cost" ==> Integral(x))
  }

  /** A provider without white space or slash, a slash, and a name without white space. */
  predicate ValidModelId(id: string) {
    && (forall i :: 0 <= i < |id| ==> !IsSpace(id[i]))
    && exists k :: 0 < k < |id| - 1 && id[k] == '/' && forall i :: 0 <= i < k ==> id[i] != '/'
  }

  predicate Texts(items: seq<Json>) {
    forall i :: 0 <= i < |items| ==> items[i].Text?
  }

  function Strings(items: seq<Json>): seq<string>
    requires Texts(items)
  {
    seq(|items|, i requires 0 <= i < |items| => items[i].s)
  }

  predicate ValidChoice(path: string, value: string) {
    if path == REASONING then value in THINKING_LEVELS else ValidModelId(value)
  }

  predicate ValidChoices(path: string, proposed: Json) {
    && proposed.Array? && proposed.items != [] && Texts(proposed.items)
    && |Distinct(Strings(proposed.items))| == |proposed.items|
    && forall i :: 0 <= i < |proposed.items| ==> ValidChoice(path, proposed.items[i].s)
  }

  function Within(values: seq<string>): string -> bool {
    value => value in values
  }

  /** The setting of one path, and who set it. */
  datatype Entry = Entry(setting: Setting, provenance: Provenance)

  /** One layer's proposal for one path, as the inner loop applies it. */
  function Propose(path: string, entry: Entry, layer: Layer, proposed: Json): Result<Entry, PolicyError> {
    var stamp := (reason: Reason) => Provenance(layer.scope, layer.version, reason);
    match entry.setting
    case Flag(on) =>
      if !proposed.Bool? then Err(InvalidValue(path))
      else if proposed.b && !on then Ok(entry)
      else Ok(Entry(Flag(on && proposed.b), stamp(if proposed.b then Selected else Disabled)))
    case Limit(cap) =>
      if proposed.Null? then Ok(entry)
      else if !proposed.Number? || !ValidLimit(path, proposed.x) then Err(InvalidValue(path))
      else if cap.Some? && cap.value < proposed.x then Ok(entry)
      else Ok(Entry(Limit(Some(proposed.x)), stamp(Capped)))
    case Choices(values) =>
      if !ValidChoices(path, proposed) then Err(InvalidValue(path))
      else
        var items := Strings(proposed.items);
        var next := if path == MODELS && values == [] then items else Filter(Within(items), values);
        if next == [] then Err(NothingAllowed(path)) else Ok(Entry(Choices(next), stamp(Restricted)))
  }

  predicate Delegable(layer: Layer) {
    layer.scope == Class || layer.scope == Project || layer.scope == SessionScope
  }

  function ApplyPath(delegated: seq<string>, path: string, entry: Entry, layer: Layer): Result<Entry, PolicyError> {
    if path !in layer.settings then Ok(entry)
    else if Delegable(layer) && path !in delegated then Err(NotDelegated(path))
    else Propose(path, entry, layer, layer.settings[path])
  }

  /** The history of one path over the layers, on its own. */
  function Trace(delegated: seq<string>, path: string, layers: seq<Layer>, start: Entry): Result<Entry, PolicyError> {
    if layers == [] then Ok(start) else
    var before := Trace(delegated, path, layers[..|layers| - 1], start);
    if before.Err? then before else ApplyPath(delegated, path, before.value, layers[|layers| - 1])
  }

  datatype Input = Input(
    delegatedPaths: seq<string>, platform: Option<Layer>, organization: Option<Layer>, classLayer: Option<Layer>,
    project: Option<Layer>, session: Option<Layer>)

  function Present(layer: Option<Layer>): seq<Layer> {
    if layer.Some? then [layer.value] else []
  }

  function Layers(input: Input): seq<Layer> {
    [input.platform.GetOr(Layer(Platform, 1.0, map[]))] + Present(input.organization) + Present(input.classLayer)
    + Present(input.project) + Present(input.session)
  }

  function StartEntry(layers: seq<Layer>, path: string): Entry
    requires layers != []
  {
    Entry(DefaultSetting(path), Provenance(Platform, layers[0].version, Default))
  }

  datatype Effective = Effective(settings: Settings, provenance: map<string, Provenance>, sourceVersions: map<Scope,
      real>)

  /** Every version is valid and no path fails. */
  ghost predicate Resolves(paths: seq<string>, delegated: seq<string>, layers: seq<Layer>)
    requires layers != []
  {
    && (forall i :: 0 <= i < |layers| ==> ValidVersion(layers[i].version))
    && (forall path :: path in paths ==> Trace(delegated, path, layers, StartEntry(layers, path)).Ok?)
  }

  function LastVersion(layers: seq<Layer>): map<Scope, real> {
    if layers == [] then map[] else
    var last := layers[|layers| - 1];
    LastVersion(layers[..|layers| - 1])[last.scope := last.version]
  }

  /** The written objects hold these entries. */
  ghost predicate Holds(settings: Settings, provenance: map<string, Provenance>, path: string, entry: Result<Entry,
                        PolicyError>) {
    path in settings && path in provenance && entry == Ok(Entry(settings[path], provenance[path]))
  }

  /** The inner loop: one layer's proposals, path by path, written in place. */
  method ApplyLayer(paths: seq<string>, delegated: seq<string>, layer: Layer, ghost entries: map<string, Entry>,
                    settings: Settings, provenance: map<string, Provenance>)
    returns (error: Option<PolicyError>, settings': Settings, provenance': map<string, Provenance>)
    requires NoRepeats(paths)
    requires forall path :: path in paths ==> path in entries && Holds(settings, provenance, path, Ok(entries[path]))
    ensures error.None? ==> forall path :: path in paths ==>
              Holds(settings', provenance', path, ApplyPath(delegated, path, entries[path], layer))
    ensures error.Some? ==> exists path :: path in paths && ApplyPath(delegated, path, entries[path], layer).Err?
  {
    settings', provenance', error := settings, provenance, None;
    for i := 0 to |paths|
      invariant forall j :: 0 <= j < i ==>
                  Holds(settings', provenance', paths[j], ApplyPath(delegated, paths[j], entries[paths[j]], layer))
      invariant forall j :: i <= j < |paths| ==> Holds(settings', provenance', paths[j], Ok(entries[paths[j]]))
    {
      var path := paths[i];
      assert path in paths;
      if path in layer.settings {
        if Delegable(layer) && path !in delegated { return Some(NotDelegated(path)), settings', provenance'; }
        var next := Propose(path, Entry(settings'[path], provenance'[path]), layer, layer.settings[path]);
        if next.Err? { return Some(next.error), settings', provenance'; }
        settings' := settings'[path := next.value.setting];
        provenance' := provenance'[path := next.value.provenance];
      }
    }
  }

  lemma TraceSnoc(delegated: seq<string>, path: string, layers: seq<Layer>, i: nat, start: Entry)
    requires i < |layers|
    ensures var before := Trace(delegated, path, layers[..i], start);
            Trace(delegated, path, layers[..i + 1], start) ==
            if before.Err? then before else ApplyPath(delegated, path, before.value, layers[i])
  {
    assert layers[..i + 1][..i] == layers[..i];
  }

  /** A path that fails over a prefix of the layers fails over all of them. */
  lemma {:induction false} TracePrefix(delegated: seq<string>, path: string, layers: seq<Layer>, n: nat, start: Entry)
    requires n <= |layers| && Trace(delegated, path, layers[..n], start).Err?
    ensures Trace(delegated, path, layers, start).Err?
  {
    if n < |layers| {
      assert layers[..|layers| - 1][..n] == layers[..n];
      TracePrefix(delegated, path, layers[..|layers| - 1], n, start);
    } else {
      assert layers[..n] == layers;
    }
  }

  /** The entry of each path after the first i layers. */
  ghost function EntriesAfter(paths: seq<string>, delegated: seq<string>, layers: seq<Layer>, i: nat)
    : map<string, Entry>
    requires layers != [] && i <= |layers|
    requires forall path :: path in paths ==> Trace(delegated, path, layers[..i], StartEntry(layers, path)).Ok?
  {
    map path | path in paths :: Trace(delegated, path, layers[..i], StartEntry(layers, path)).value
  }

  ghost predicate HoldsAfter(paths: seq<string>, delegated: seq<string>, layers: seq<Layer>, i: nat,
                             settings: Settings, provenance: map<string, Provenance>)
    requires layers != [] && i <= |layers|
  {
    forall path :: path in paths ==>
        Holds(settings, provenance, path, Trace(delegated, path, layers[..i], StartEntry(layers, path)))
  }

  /** One round of the outer loop after the version check. */
  method NextLayer(paths: seq<string>, delegated: seq<string>, layers: seq<Layer>, i: nat, settings: Settings,
                   provenance: map<string, Provenance>)
    returns (error: Option<PolicyError>, settings': Settings, provenance': map<string, Provenance>)
    requires NoRepeats(paths) && i < |layers| && HoldsAfter(paths, delegated, layers, i, settings, provenance)
    ensures error.None? ==> HoldsAfter(paths, delegated, layers, i + 1, settings', provenance')
    ensures error.Some? ==> !Resolves(paths, delegated, layers)
  {
    ghost var entries := EntriesAfter(paths, delegated, layers, i);
    error, settings', provenance' := ApplyLayer(paths, delegated, layers[i], entries, settings, provenance);
    forall path | path in paths
      ensures Trace(delegated, path, layers[..i + 1], StartEntry(layers, path))
                == ApplyPath(delegated, path, entries[path], layers[i])
    {
      TraceSnoc(delegated, path, layers, i, StartEntry(layers, path));
    }
    if error.Some? {
      ghost var path :| path in paths && ApplyPath(delegated, path, entries[path], layers[i]).Err?;
      TracePrefix(delegated, path, layers, i + 1, StartEntry(layers, path));
    }
  }

  lemma DefaultsHold(paths: seq<string>, delegated: seq<string>, layers: seq<Layer>, settings: Settings,
                     provenance: map<string, Provenance>)
    requires layers != [] && settings == map path | path in paths :: DefaultSetting(path)
    requires provenance == map path | path in paths :: Provenance(Platform, layers[0].version, Default)
    ensures HoldsAfter(paths, delegated, layers, 0, settings, provenance)
  {
  }

  lemma AllHold(paths: seq<string>, delegated: seq<string>, layers: seq<Layer>, settings: Settings,
                provenance: map<string, Provenance>)
    requires layers != [] && HoldsAfter(paths, delegated, layers, |layers|, settings, provenance)
    requires forall i :: 0 <= i < |layers| ==> ValidVersion(layers[i].version)
    ensures Resolves(paths, delegated, layers)
    ensures forall path :: path in paths ==>
              Holds(settings, provenance, path, Trace(delegated, path, layers, StartEntry(layers, path)))
  {
    assert layers[..|layers|] == layers;
  }

  lemma LastVersionSnoc(layers: seq<Layer>, i: nat)
    requires i < |layers|
    ensures LastVersion(layers[..i + 1]) == LastVersion(layers[..i])[layers[i].scope := layers[i].version]
  {
    assert layers[..i + 1][..i] == layers[..i];
  }

  method MergeLayers(paths: seq<string>, delegated: seq<string>, layers: seq<Layer>)
    returns (r: Result<Effective, PolicyError>)
    requires NoRepeats(paths) && layers != []
    ensures r.Ok? <==> Resolves(paths, delegated, layers)
    ensures r.Ok? ==> r.value.sourceVersions == LastVersion(layers)
    ensures r.Ok? ==> forall path :: path in paths ==>
              Holds(r.value.settings, r.value.provenance, path,
                  Trace(delegated, path, layers, StartEntry(layers, path)))
  {
    var settings: Settings := map path | path in paths :: DefaultSetting(path);
    var provenance := map path | path in paths :: Provenance(Platform, layers[0].version, Default);
    DefaultsHold(paths, delegated, layers, settings, provenance);
    var versions: map<Scope, real> := map[];
    for i := 0 to |layers|
      invariant versions == LastVersion(layers[..i])
      invariant forall j :: 0 <= j < i ==> ValidVersion(layers[j].version)
      invariant HoldsAfter(paths, delegated, layers, i, settings, provenance)
    {
      if !ValidVersion(layers[i].version) { return Err(InvalidVersion); }
      LastVersionSnoc(layers, i);
      versions := versions[layers[i].scope := layers[i].version];
      var error;
      error, settings, provenance := NextLayer(paths, delegated, layers, i, settings, provenance);
      if error.Some? { return Err(error.value); }
    }
    assert layers[..|layers|] == layers;
    AllHold(paths, delegated, layers, settings, provenance);
    r := Ok(Effective(settings, provenance, versions));
  }

  /** Resolution succeeds exactly when every path resolves on its own, and then writes each path's own history. */
  method ResolveEffectivePolicy(input: Input) returns (r: Result<Effective, PolicyError>)
    ensures r.Ok? <==> Resolves(ALL_PATHS, input.delegatedPaths, Layers(input))
    ensures r.Ok? ==> r.value.sourceVersions == LastVersion(Layers(input))
    ensures r.Ok? ==> forall path :: path in ALL_PATHS ==>
              Holds(r.value.settings, r.value.provenance, path,
                    Trace(input.delegatedPaths, path, Layers(input), StartEntry(Layers(input), path)))
  {
    r := MergeLayers(ALL_PATHS, input.delegatedPaths, Layers(input));
  }
}
