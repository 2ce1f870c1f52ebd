/**
 The resolved policy as an order: more layers only restrict, the order of layers does not matter
 for what is permitted, and the provenance names a layer that proposed the effective value.
 */
module PolicyOrder {
  import opened Common
  import opened Resolution
  import opened PolicyMeet

  /** When the history of a path succeeds, stated on the layers alone. */
  ghost predicate PathResolves(delegated: seq<string>, path: string, layers: seq<Layer>) {
    && AllAcceptable(delegated, path, layers)
    && (DefaultSetting(path).Choices? && SomeoneProposes(layers, path) ==>
        Filter(Meet(layers, path), Base(layers, path)) != [])
  }

  /** What it then yields. */
  ghost predicate PathValue(path: string, layers: seq<Layer>, setting: Setting) {
    match DefaultSetting(path)
    case Flag(on) => setting == Flag(on && AllTurnOn(layers, path))
    case Limit(_) => setting.Limit? && LeastCap(layers, path, setting.cap)
    case Choices(_) => setting.Choices? && ChoicesMeet(layers, path, setting.values)
  }

  lemma ListDefaults()
    ensures DefaultSetting(MODELS) == Choices([]) && DefaultSetting(REASONING) == Choices(THINKING_LEVELS)
    ensures MODELS in ALL_PATHS && REASONING in ALL_PATHS
  {
    assert ALL_PATHS[18] == MODELS && ALL_PATHS[19] == REASONING;
  }

  /**
   The in-place merge of a path is its pointwise specification: it succeeds exactly when the specification says so.
   */
  lemma MergeRefinesMeet(delegated: seq<string>, path: string, layers: seq<Layer>)
    requires layers != []
    ensures var r := Trace(delegated, path, layers, StartEntry(layers, path));
            && (r.Ok? <==> PathResolves(delegated, path, layers))
            && (r.Ok? ==> PathValue(path, layers, r.value.setting))
  {
    var start := StartEntry(layers, path);
    match DefaultSetting(path)
    case Flag(_) => FlagTrace(delegated, path, layers, start);
    case Limit(_) => LimitTrace(delegated, path, layers, start);
    case Choices(_) => ListDefaults(); ChoicesTrace(delegated, path, layers, start);
  }

  /** Every layer of the first list is in the second. */
  ghost predicate Among(fewer: seq<Layer>, more: seq<Layer>) {
    forall layer :: layer in fewer ==> layer in more
  }

  /** A base that is not empty and is no default is the list of some proposing layer. */
  lemma {:induction false} BaseIsProposed(layers: seq<Layer>, path: string)
    requires path == MODELS && Base(layers, path) != []
    ensures exists layer :: layer in layers && Proposes(layer, path) && layer.settings[path].Array?
              && Texts(layer.settings[path].items)
                            && Base(layers, path) == Strings(layer.settings[path].items)
  {
    var init, last := layers[..|layers| - 1], layers[|layers| - 1];
    if Base(init, path) != [] { BaseIsProposed(init, path); } else { assert last in layers; }
  }

  /** A value that every layer of the longer list allows is in the intersection of the shorter one. */
  lemma MeetOfFewer(delegated: seq<string>, path: string, fewer: seq<Layer>, more: seq<Layer>, value: string)
    requires DefaultSetting(path).Choices? && Among(fewer, more) && AllAcceptable(delegated, path, more)
    requires value in Filter(Meet(more, path), Base(more, path))
    requires path == MODELS ==> SomeoneProposes(fewer, path)
    ensures value in Filter(Meet(fewer, path), Base(fewer, path))
  {
    FilterMembers(Meet(more, path), Base(more, path));
    FilterMembers(Meet(fewer, path), Base(fewer, path));
    assert Meet(more, path)(value) && ListedByAll(fewer, path, value);
    if path == MODELS {
      ProposedBase(delegated, fewer, path);
      BaseIsProposed(fewer, path);
      var layer :| layer in fewer && Proposes(layer, path) && layer.settings[path].Array?
          && Texts(layer.settings[path].items)
                   && Base(fewer, path) == Strings(layer.settings[path].items);
      assert Lists(layer, path, value);
    }
  }

  /** Dropping layers never makes a resolvable policy unresolvable. */
  lemma FewerLayersResolve(delegated: seq<string>, path: string, fewer: seq<Layer>, more: seq<Layer>)
    requires Among(fewer, more) && PathResolves(delegated, path, more)
    ensures PathResolves(delegated, path, fewer)
  {
    if DefaultSetting(path).Choices? && SomeoneProposes(fewer, path) {
      var layer :| layer in fewer && Proposes(layer, path);
      assert layer in more && SomeoneProposes(more, path);
      var value := Filter(Meet(more, path), Base(more, path))[0];
      assert value in Filter(Meet(more, path), Base(more, path));
      MeetOfFewer(delegated, path, fewer, more, value);
    }
  }

  /** For models, an empty list places no restriction. */
  predicate Permits(path: string, values: seq<string>, value: string) {
    (path == MODELS && values == []) || value in values
  }

  /** The second setting is at least as restrictive as the first. */
  ghost predicate Restricts(path: string, a: Setting, b: Setting) {
    match a
    case Flag(on) => b.Flag? && (b.on ==> on)
    case Limit(cap) => b.Limit? && (cap.Some? ==> b.cap.Some? && b.cap.value <= cap.value)
    case Choices(values) => b.Choices? && forall value :: Permits(path, b.values, value) ==>
        Permits(path, values, value)
  }

  lemma ChoicesOnlyRestrict(delegated: seq<string>, path: string, fewer: seq<Layer>, more: seq<Layer>, a: Setting,
                            b: Setting)
    requires DefaultSetting(path).Choices? && Among(fewer, more) && PathResolves(delegated, path, more)
    requires PathValue(path, fewer, a) && PathValue(path, more, b)
    ensures Restricts(path, a, b)
  {
    forall value | Permits(path, b.values, value) ensures Permits(path, a.values, value) {
      if path == MODELS && !SomeoneProposes(fewer, path) {
        assert a.values == [];
      } else {
        if path == MODELS {
          var layer :| layer in fewer && Proposes(layer, path);
          assert layer in more && SomeoneProposes(more, path);
        }
        MeetOfFewer(delegated, path, fewer, more, value);
      }
    }
  }

  /** Adding layers only restricts: each setting of the longer list is at least as restrictive. */
  lemma MoreLayersOnlyRestrict(delegated: seq<string>, path: string, fewer: seq<Layer>, more: seq<Layer>, a: Setting,
                               b: Setting)
    requires Among(fewer, more) && PathResolves(delegated, path, more)
    requires PathValue(path, fewer, a) && PathValue(path, more, b)
    ensures Restricts(path, a, b)
  {
    match DefaultSetting(path)
    case Flag(_) =>
      if AllTurnOn(more, path) {
        forall layer | layer in fewer && Proposes(layer, path) ensures Turns(layer, path, true) {
          assert layer in more;
        }
      }
    case Limit(_) =>
      if a.cap.Some? {
        var layer :| layer in fewer && Caps(layer, path, a.cap.value);
        assert layer in more;
      }
    case Choices(_) => ChoicesOnlyRestrict(delegated, path, fewer, more, a, b);
  }

  /** What the order of layers can change: nothing but the order of models. */
  ghost predicate SameUpToOrder(path: string, a: Setting, b: Setting) {
    if path == MODELS then a.Choices? && b.Choices? && forall value :: value in a.values <==> value in b.values
    else a == b
  }

  lemma ModelsOrderIndependent(delegated: seq<string>, a: seq<Layer>, b: seq<Layer>, x: Setting, y: Setting,
                               value: string)
    requires Among(a, b) && Among(b, a) && DefaultSetting(MODELS).Choices? && PathResolves(delegated, MODELS, a)
    requires PathValue(MODELS, a, x) && PathValue(MODELS, b, y) && value in x.values
    ensures value in y.values
  {
    FewerLayersResolve(delegated, MODELS, b, a);
    assert SomeoneProposes(a, MODELS);
    MeetOfFewer(delegated, MODELS, b, a, value);
  }

  /**
   Reordering layers (class, project and session layers included) changes neither whether the
   policy resolves nor any setting, except for the order of the models.
   */
  lemma LayerOrderIsImmaterial(delegated: seq<string>, path: string, a: seq<Layer>, b: seq<Layer>, x: Setting,
                               y: Setting)
    requires multiset(a) == multiset(b)
    requires PathResolves(delegated, path, a) && PathValue(path, a, x) && PathValue(path, b, y)
    ensures PathResolves(delegated, path, b)
    ensures SameUpToOrder(path, x, y)
  {
    SameContents(a, b);
    FewerLayersResolve(delegated, path, b, a);
    MoreLayersOnlyRestrict(delegated, path, b, a, y, x);
    MoreLayersOnlyRestrict(delegated, path, a, b, x, y);
    if path == MODELS {
      ListDefaults();
      forall value ensures value in x.values <==> value in y.values {
        if value in x.values { ModelsOrderIndependent(delegated, a, b, x, y, value); }
        if value in y.values { ModelsOrderIndependent(delegated, b, a, y, x, value); }
      }
    } else if x.Choices? {
      FilterSame(Meet(a, path), Meet(b, path), Base(a, path));
    }
  }

  lemma SameContents(a: seq<Layer>, b: seq<Layer>)
    requires multiset(a) == multiset(b)
    ensures Among(a, b) && Among(b, a)
  {
    forall layer ensures layer in a <==> layer in b {
      assert layer in a <==> layer in multiset(a);
      assert layer in b <==> layer in multiset(b);
    }
  }

  // ----- Provenance -----

  /** The layer the provenance names. */
  predicate Named(layer: Layer, provenance: Provenance) {
    layer.scope == provenance.scope && layer.version == provenance.version
  }

  /**
   A layer whose own proposal is the effective value: the value turned on or off, the cap, or a list that holds every
   value left.
   */
  ghost predicate Accounts(layer: Layer, path: string, entry: Entry) {
    && Named(layer, entry.provenance)
    && match entry.provenance.reason
       case Default => false
       case Selected => entry.setting == Flag(true) && Turns(layer, path, true)
       case Disabled => entry.setting == Flag(false) && Turns(layer, path, false)
       case Capped => entry.setting.Limit? && entry.setting.cap.Some? && Caps(layer, path, entry.setting.cap.value)
       case Restricted => entry.setting.Choices? && forall value :: value in entry.setting.values ==>
           Lists(layer, path, value)
  }

  ghost predicate Explained(layers: seq<Layer>, path: string, start: Entry, entry: Entry) {
    entry == start || exists layer :: layer in layers && Accounts(layer, path, entry)
  }

  lemma ProposeExplains(delegated: seq<string>, path: string, entry: Entry, layer: Layer)
    requires ApplyPath(delegated, path, entry, layer).Ok? && ApplyPath(delegated, path, entry, layer).value != entry
    ensures Accounts(layer, path, ApplyPath(delegated, path, entry, layer).value)
  {
    var next := ApplyPath(delegated, path, entry, layer).value;
    if entry.setting.Choices? {
      FilterMembers(Within(Strings(layer.settings[path].items)), entry.setting.values);
      assert forall value :: value in next.setting.values ==> value in Strings(layer.settings[path].items);
    }
  }

  /** Either the path keeps its default entry, or its provenance names a layer that proposed the effective value. */
  lemma {:induction false} ProvenanceExplains(delegated: seq<string>, path: string, layers: seq<Layer>, start: Entry)
    requires Trace(delegated, path, layers, start).Ok?
    ensures Explained(layers, path, start, Trace(delegated, path, layers, start).value)
  {
    if layers != [] {
      var init, last := layers[..|layers| - 1], layers[|layers| - 1];
      ProvenanceExplains(delegated, path, init, start);
      var before, after := Trace(delegated, path, init, start).value, Trace(delegated, path, layers, start).value;
      if after != before {
        ProposeExplains(delegated, path, before, last);
        assert last in layers && Accounts(last, path, after);
      } else if before != start {
        var layer :| layer in init && Accounts(layer, path, before);
        assert layer in layers;
      }
    }
  }
}
