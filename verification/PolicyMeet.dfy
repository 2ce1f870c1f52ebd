/**
 What the layered merge computes, path by path: a meet of the proposals, independent of the order
 of the layers except for the order of models and the provenance.
 */
module PolicyMeet {
  import opened Common
  import opened Resolution

  predicate Proposes(layer: Layer, path: string) {
    path in layer.settings
  }

  /** The shape a proposal must have for a setting of this kind. */
  predicate WellShaped(path: string, kind: Setting, proposed: Json) {
    match kind
    case Flag(_) => proposed.Bool?
    case Limit(_) => proposed.Null? || (proposed.Number? && ValidLimit(path, proposed.x))
    case Choices(_) => ValidChoices(path, proposed)
  }

  /** Whatever the layer proposes for the path it may propose, in the right shape. */
  predicate Acceptable(delegated: seq<string>, path: string, layer: Layer) {
    Proposes(layer, path) ==>
        (Delegable(layer) ==> path in delegated) && WellShaped(path, DefaultSetting(path), layer.settings[path])
  }

  ghost predicate AllAcceptable(delegated: seq<string>, path: string, layers: seq<Layer>) {
    forall layer :: layer in layers ==> Acceptable(delegated, path, layer)
  }

  ghost predicate SomeoneProposes(layers: seq<Layer>, path: string) {
    exists layer :: layer in layers && Proposes(layer, path)
  }

  // ----- Flags: the default and every proposal -----

  predicate Turns(layer: Layer, path: string, on: bool) {
    Proposes(layer, path) && layer.settings[path] == Bool(on)
  }

  ghost predicate AllTurnOn(layers: seq<Layer>, path: string) {
    forall layer :: layer in layers && Proposes(layer, path) ==> Turns(layer, path, true)
  }

  /**
   Flags: resolution succeeds exactly when every proposal is acceptable; the value is the default and every proposal.
   */
  lemma {:induction false} FlagTrace(delegated: seq<string>, path: string, layers: seq<Layer>, start: Entry)
    requires DefaultSetting(path).Flag? && start.setting == DefaultSetting(path)
    ensures var r := Trace(delegated, path, layers, start);
            && (r.Ok? <==> AllAcceptable(delegated, path, layers))
            && (r.Ok? ==> r.value.setting == Flag(DefaultSetting(path).on && AllTurnOn(layers, path)))
  {
    if layers != [] {
      var init, last := layers[..|layers| - 1], layers[|layers| - 1];
      FlagTrace(delegated, path, init, start);
      assert last in layers;
      var before := Trace(delegated, path, init, start);
    }
  }

  // ----- Limits: the least proposal -----

  predicate Caps(layer: Layer, path: string, x: real) {
    Proposes(layer, path) && layer.settings[path] == Number(x)
  }

  /** No layer caps the path and cap is null, or cap is the smallest cap any layer proposes. */
  ghost predicate LeastCap(layers: seq<Layer>, path: string, cap: Option<real>) {
    && (forall layer, x :: layer in layers && Caps(layer, path, x) ==> cap.Some? && cap.value <= x)
    && (cap.Some? ==> exists layer :: layer in layers && Caps(layer, path, cap.value))
  }

  lemma LimitStep(delegated: seq<string>, path: string, layers: seq<Layer>, entry: Entry, last: Layer)
    requires DefaultSetting(path) == Limit(None) && entry.setting.Limit? && LeastCap(layers, path, entry.setting.cap)
    ensures var r := ApplyPath(delegated, path, entry, last);
            && (r.Ok? <==> Acceptable(delegated, path, last))
            && (r.Ok? ==> r.value.setting.Limit? && LeastCap(layers + [last], path, r.value.setting.cap))
  {
    assert last in layers + [last];
    if Acceptable(delegated, path, last) && Proposes(last, path) && last.settings[path].Number? {
      assert Caps(last, path, last.settings[path].x);
    }
  }

  /**
   Limits: resolution succeeds exactly when every proposal is acceptable; the value is the least cap proposed, null
   if none is.
   */
  lemma {:induction false} LimitTrace(delegated: seq<string>, path: string, layers: seq<Layer>, start: Entry)
    requires DefaultSetting(path) == Limit(None) && start.setting == Limit(None)
    ensures var r := Trace(delegated, path, layers, start);
            && (r.Ok? <==> AllAcceptable(delegated, path, layers))
            && (r.Ok? ==> r.value.setting.Limit? && LeastCap(layers, path, r.value.setting.cap))
  {
    if layers != [] {
      var init, last := layers[..|layers| - 1], layers[|layers| - 1];
      LimitTrace(delegated, path, init, start);
      assert layers == init + [last];
      var before := Trace(delegated, path, init, start);
      if before.Ok? { LimitStep(delegated, path, init, before.value, last); }
    }
  }

  // ----- Lists: the ordered intersection -----

  /** Every layer that proposes a list for the path lists the value. */
  ghost predicate ListedByAll(layers: seq<Layer>, path: string, value: string) {
    forall layer :: layer in layers && Proposes(layer, path) ==> Lists(layer, path, value)
  }

  predicate Lists(layer: Layer, path: string, value: string) {
    Proposes(layer, path) && layer.settings[path].Array? && Texts(layer.settings[path].items)
        && value in Strings(layer.settings[path].items)
  }

  ghost function Meet(layers: seq<Layer>, path: string): string -> bool {
    value => ListedByAll(layers, path, value)
  }

  /** What the intersection starts from: the default list or, for models, the first list proposed. */
  function Base(layers: seq<Layer>, path: string): seq<string> {
    if path != MODELS then (if DefaultSetting(path).Choices? then DefaultSetting(path).values else [])
    else if layers == [] then []
    else
      var before, last := Base(layers[..|layers| - 1], path), layers[|layers| - 1];
      if before == [] && Proposes(last, path) && last.settings[path].Array? && Texts(last.settings[path].items)
      then Strings(last.settings[path].items) else before
  }

  lemma {:induction false} FilterSame<T(!new)>(p: T -> bool, q: T -> bool, s: seq<T>)
    requires forall x :: x in s ==> p(x) == q(x)
    ensures Filter(p, s) == Filter(q, s)
  {
    if s != [] {
      FilterSame(p, q, s[..|s| - 1]);
      assert s[|s| - 1] in s;
    }
  }

  ghost predicate ChoicesMeet(layers: seq<Layer>, path: string, values: seq<string>) {
    && values == Filter(Meet(layers, path), Base(layers, path))
    && (SomeoneProposes(layers, path) ==> values != [])
    && (path == MODELS && !SomeoneProposes(layers, path) ==> values == [])
  }

  /** The intersection with one more list. */
  lemma ChoicesNext(layers: seq<Layer>, path: string, values: seq<string>, last: Layer)
    requires ChoicesMeet(layers, path, values) && DefaultSetting(path).Choices?
    requires Proposes(last, path) && ValidChoices(path, last.settings[path])
    ensures var items := Strings(last.settings[path].items);
            Filter(Meet(layers + [last], path), Base(layers + [last], path)) ==
            if path == MODELS && values == [] then items else Filter(Within(items), values)
  {
    var items, all := Strings(last.settings[path].items), layers + [last];
    assert all[..|layers|] == layers;
    forall x ensures Meet(all, path)(x) <==> Within(items)(x) && Meet(layers, path)(x) {
      assert Lists(last, path, x) <==> x in items;
    }
    if path == MODELS && values == [] {
      NoneProposed(layers, path);
      FilterAll(Meet(all, path), items);
    } else {
      FilterTwice(Within(items), Meet(layers, path), Meet(all, path), Base(layers, path));
    }
  }

  /** Without a proposal every value is in the meet, and there is no base for models. */
  lemma {:induction false} NoneProposed(layers: seq<Layer>, path: string)
    requires !SomeoneProposes(layers, path)
    ensures path == MODELS ==> Base(layers, path) == []
    ensures forall x :: Meet(layers, path)(x)
  {
    if layers != [] {
      NoneProposed(layers[..|layers| - 1], path);
      assert !Proposes(layers[|layers| - 1], path);
    }
  }

  lemma ChoicesUnchanged(layers: seq<Layer>, path: string, values: seq<string>, last: Layer)
    requires ChoicesMeet(layers, path, values) && !Proposes(last, path)
    ensures ChoicesMeet(layers + [last], path, values)
  {
    var all := layers + [last];
    assert all[..|layers|] == layers;
    FilterSame(Meet(all, path), Meet(layers, path), Base(layers, path));
  }

  lemma ChoicesStep(delegated: seq<string>, path: string, layers: seq<Layer>, last: Layer, entry: Entry)
    requires DefaultSetting(path).Choices? && entry.setting.Choices? && ChoicesMeet(layers, path, entry.setting.values)
    ensures var r := ApplyPath(delegated, path, entry, last);
            && (r.Ok? <==> Acceptable(delegated, path, last)
                           && (Proposes(last, path) ==>
                               Filter(Meet(layers + [last], path), Base(layers + [last], path)) != []))
            && (r.Ok? ==> r.value.setting.Choices? && ChoicesMeet(layers + [last], path, r.value.setting.values))
  {
    if Proposes(last, path) {
      if Acceptable(delegated, path, last) { ChoicesNext(layers, path, entry.setting.values, last); }
      assert last in layers + [last];
    } else {
      ChoicesUnchanged(layers, path, entry.setting.values, last);
    }
  }

  lemma ChoicesStart(path: string)
    requires DefaultSetting(path).Choices? && (path == MODELS ==> DefaultSetting(path) == Choices([]))
    ensures ChoicesMeet([], path, DefaultSetting(path).values)
  {
    NoneProposed([], path);
    FilterAll(Meet([], path), Base([], path));
  }

  /** If the whole intersection is not empty, no intersection of fewer lists is. */
  lemma MeetShrinks(layers: seq<Layer>, path: string, last: Layer)
    requires Filter(Meet(layers + [last], path), Base(layers + [last], path)) != []
    requires path == MODELS && SomeoneProposes(layers, path) ==> Base(layers, path) != []
    requires SomeoneProposes(layers, path)
    ensures Filter(Meet(layers, path), Base(layers, path)) != []
  {
    var all := layers + [last];
    assert all[..|layers|] == layers;
    assert Base(all, path) == Base(layers, path);
    FilterMembers(Meet(all, path), Base(all, path));
    FilterMembers(Meet(layers, path), Base(layers, path));
    var x := Filter(Meet(all, path), Base(all, path))[0];
    assert x in Filter(Meet(all, path), Base(all, path));
    assert ListedByAll(layers, path, x);
    assert x in Filter(Meet(layers, path), Base(layers, path));
  }

  lemma {:induction false} ProposedBase(delegated: seq<string>, layers: seq<Layer>, path: string)
    requires path == MODELS && DefaultSetting(path).Choices? && AllAcceptable(delegated, path, layers)
               && SomeoneProposes(layers, path)
    ensures Base(layers, path) != []
  {
    var init, last := layers[..|layers| - 1], layers[|layers| - 1];
    if SomeoneProposes(init, path) {
      ProposedBase(delegated, init, path);
    } else {
      assert Acceptable(delegated, path, last);
    }
  }

  /**
   Lists: resolution succeeds exactly when every proposal is acceptable and the intersection of
   all proposed lists is not empty, and the value is that intersection in the order of its base.
   */
  lemma {:induction false} ChoicesTrace(delegated: seq<string>, path: string, layers: seq<Layer>, start: Entry)
    requires DefaultSetting(path).Choices? && (path == MODELS ==> DefaultSetting(path) == Choices([]))
    requires start.setting == DefaultSetting(path)
    ensures var r := Trace(delegated, path, layers, start);
            && (r.Ok? <==> AllAcceptable(delegated, path, layers)
                           && (SomeoneProposes(layers, path) ==> Filter(Meet(layers, path), Base(layers, path)) != []))
            && (r.Ok? ==> r.value.setting.Choices? && ChoicesMeet(layers, path, r.value.setting.values))
  {
    if layers == [] {
      ChoicesStart(path);
    } else {
      var init, last := layers[..|layers| - 1], layers[|layers| - 1];
      ChoicesTrace(delegated, path, init, start);
      assert layers == init + [last];
      var before := Trace(delegated, path, init, start);
      if before.Ok? {
        ChoicesStep(delegated, path, init, last, before.value);
      } else if AllAcceptable(delegated, path, layers) {
        ProposedBaseIfModels(delegated, init, path);
        if Filter(Meet(layers, path), Base(layers, path)) != [] { MeetShrinks(init, path, last); }
      }
    }
  }

  lemma ProposedBaseIfModels(delegated: seq<string>, layers: seq<Layer>, path: string)
    requires DefaultSetting(path).Choices? && AllAcceptable(delegated, path, layers) && SomeoneProposes(layers, path)
    ensures path == MODELS ==> Base(layers, path) != []
  {
    if path == MODELS { ProposedBase(delegated, layers, path); }
  }
}
