/**
 Replaying records: the projection does not depend on the order of the log or on other streams,
 and later events only extend what earlier ones produced.
 */
module EvidenceStability {
  import opened Common
  import opened Evidence
  import opened EvidenceGroups
  import Sorting

  // ----- Later events only extend earlier items -----

  /** The same item, with references that continue the earlier ones and the id that goes with them. */
  predicate ItemExtends(a: Item, b: Item) {
    b == a.(id := b.id, references := b.references) && a.references <= b.references
  }

  predicate Extends(a: seq<Item>, b: seq<Item>) {
    |a| <= |b| && forall i :: 0 <= i < |a| ==> ItemExtends(a[i], b[i])
  }

  lemma JoinExtends(c: Context, s: Scan, journal: seq<(Key, Event)>, key: Key, e: Event, s1: Scan)
    requires |s.owner| == |s.output| && KeyInv(c, s, journal, key) && EditCategory(key.category)
               && JoinedTo(c, s, key, e, s1)
    ensures Extends(s.output, s1.output)
  {
    IndexPointsAtOwnItem(c, s, journal, key);
    RegroupedSummaryIsStable(c.host, key.category, key.file);
  }

  lemma EditExtends(c: Context, s: Scan, journal: seq<(Key, Event)>, key: Key, e: Event)
    requires GroupInv(c, s, journal) && EditCategory(key.category)
    ensures Extends(s.output, Edit(c, s, key, e).output)
  {
    assert KeyInv(c, s, journal, key);
    if Joins(s, key, e) { JoinExtends(c, s, journal, key, e, Edit(c, s, key, e)); }
  }

  lemma {:induction false} AgentEditsExtend(c: Context, s: Scan, journal: seq<(Key, Event)>, files: seq<string>,
                                            e: Event)
    requires GroupInv(c, s, journal)
    ensures Extends(s.output, AgentEdits(c, s, files, e).output)
  {
    if files != [] {
      var init, file := files[..|files| - 1], files[|files| - 1];
      var s1 := AgentEdits(c, s, init, e);
      AgentEditsExtend(c, s, journal, init, e);
      AgentEditsKeepGroups(c, s, journal, init, e);
      EditExtends(c, s1, journal + AgentEntries(init, e), Key(AgentEdit, file), e);
      ExtendsTransitive(s.output, s1.output, AgentEdits(c, s, files, e).output);
    }
  }

  lemma ExtendsTransitive(a: seq<Item>, b: seq<Item>, d: seq<Item>)
    requires Extends(a, b) && Extends(b, d)
    ensures Extends(a, d)
  {
    forall i | 0 <= i < |a| ensures ItemExtends(a[i], d[i]) {
      assert ItemExtends(a[i], b[i]) && ItemExtends(b[i], d[i]);
    }
  }

  lemma EditorChangeExtends(c: Context, s: Scan, journal: seq<(Key, Event)>, file: string, e: Event)
    requires GroupInv(c, s, journal)
    ensures Extends(s.output, EditorChange(c, s, file, e).output)
  {
    var s1 := Edit(c, s, Key(StudentEdit, file), e);
    var s2 := Revise(c, s1, file, e);
    EditExtends(c, s, journal, Key(StudentEdit, file), e);
    RevisePushes(c, s1, file, e);
    assert Extends(s1.output, Attempt(c, s2, e).output);
    ExtendsTransitive(s.output, s1.output, EditorChange(c, s, file, e).output);
  }

  lemma OtherStepExtends(c: Context, s: Scan, e: Event)
    requires !EditEvent(e)
    ensures Extends(s.output, Step(c, s, e).output)
  {
    var more := OtherStepPushes(c, s, e);
  }

  lemma ExtendsItself(a: seq<Item>)
    ensures Extends(a, a)
  {
  }

  lemma EditStepExtends(c: Context, s: Scan, journal: seq<(Key, Event)>, e: Event)
    requires GroupInv(c, s, journal) && EditEvent(e)
    ensures Extends(s.output, Step(c, s, e).output)
  {
    ExtendsItself(s.output);
    match e.payload
    case FileChanged(file) => EditorChangeExtends(c, s, journal, file, e);
    case AutocompleteAccepted(file) => EditExtends(c, s, journal, Key(AutocompleteEdit, file), e);
    case AgentFilesChanged(files) => AgentEditsExtend(c, s, journal, files, e);
  }

  lemma StepExtends(c: Context, s: Scan, journal: seq<(Key, Event)>, e: Event)
    requires GroupInv(c, s, journal)
    ensures Extends(s.output, Step(c, s, e).output)
  {
    if EditEvent(e) { EditStepExtends(c, s, journal, e); } else { OtherStepExtends(c, s, e); }
  }

  /** Events that arrive later leave every earlier item in place and only extend its references. */
  lemma {:induction false} RunExtends(c: Context, p: seq<Event>, q: seq<Event>)
    requires TimeSorted(p + q)
    ensures Extends(Run(c, p).output, Run(c, p + q).output)
  {
    if q == [] {
      assert p + q == p;
    } else {
      var init, e := q[..|q| - 1], q[|q| - 1];
      assert p + q == (p + init) + [e];
      assert TimeSorted(p + init) by {
        assert forall i :: 0 <= i < |p + init| ==> (p + q)[i] == (p + init)[i];
      }
      RunExtends(c, p, init);
      GroupsHold(c, p + init);
      StepExtends(c, Run(c, p + init), Journal(p + init), e);
      ExtendsTransitive(Run(c, p).output, Run(c, p + init).output, Run(c, p + q).output);
    }
  }

  // ----- The order of the log -----

  /** localeCompare is a total order on valid source ids. */
  ghost predicate CollatesIds(h: Host) {
    && Sorting.TotalPreorder(h.collate)
    && forall a, b :: ValidSourceId(a) && ValidSourceId(b) && h.collate(a, b) && h.collate(b, a) ==> a == b
  }

  lemma EventOrderIsTotal(h: Host)
    requires Sorting.TotalPreorder(h.collate)
    ensures Sorting.TotalPreorder(EventOrder(h))
  {
    forall x: Event, y: Event ensures EventOrder(h)(x, y) || EventOrder(h)(y, x) {
      assert h.collate(SourceId(x), SourceId(y)) || h.collate(SourceId(y), SourceId(x));
    }
  }

  lemma OrderedIsTimeSorted(c: Context, events: seq<Event>)
    requires Sorting.TotalPreorder(c.host.collate)
    ensures TimeSorted(Ordered(c, events))
  {
    EventOrderIsTotal(c.host);
    Sorting.SortSorted(EventOrder(c.host), Selected(c, events));
    var p := Ordered(c, events);
    forall i, j | 0 <= i < j < |p| ensures Time(p[i]) <= Time(p[j]) {
      assert EventOrder(c.host)(p[i], p[j]);
    }
  }

  /**
   Extending the log with events that sort later keeps each earlier raw item's category, actor,
   timestamp and summary, and only extends its references.
   */
  lemma LaterEventsOnlyExtend(c: Context, events: seq<Event>, later: seq<Event>)
    requires Sorting.TotalPreorder(c.host.collate)
    requires forall i, j :: 0 <= i < |Selected(c, events)| && 0 <= j < |Selected(c, later)| ==>
               EventLe(c.host, Selected(c, events)[i], Selected(c, later)[j])
    ensures Extends(Run(c, Ordered(c, events)).output, Run(c, Ordered(c, events + later)).output)
  {
    FilterAppend(Selector(c.window), events, later);
    Sorting.SortAppendLater(EventOrder(c.host), Selected(c, events), Selected(c, later));
    assert Ordered(c, events + later) == Ordered(c, events) + Ordered(c, later);
    OrderedIsTimeSorted(c, events + later);
    RunExtends(c, Ordered(c, events), Ordered(c, later));
  }

  lemma SelectedContents(c: Context, events: seq<Event>, others: seq<Event>, log: seq<Event>)
    requires multiset(log) == multiset(events) + multiset(others)
    requires forall e :: e in multiset(others) ==> !Selects(c.window, e)
    ensures multiset(Selected(c, log)) == multiset(Selected(c, events))
  {
    forall e: Event ensures multiset(Selected(c, log))[e] == multiset(Selected(c, events))[e] {
      FilterMultiset(Selector(c.window), log, e);
      FilterMultiset(Selector(c.window), events, e);
    }
  }

  /** A source id names one event. */
  ghost predicate IdsNameOneEvent(events: multiset<Event>) {
    forall x, y :: x in events && y in events && SourceId(x) == SourceId(y) ==> x == y
  }

  lemma SelectedDoNotTie(c: Context, events: seq<Event>)
    requires CollatesIds(c.host)
    requires IdsNameOneEvent(multiset(Selected(c, events)))
    ensures Sorting.NoTies(EventOrder(c.host), multiset(Selected(c, events)))
  {
    var contents := multiset(Selected(c, events));
    forall x, y | x in contents && y in contents && EventOrder(c.host)(x, y) && EventOrder(c.host)(y, x)
        ensures x == y {
      FilterMultiset(Selector(c.window), events, x);
      FilterMultiset(Selector(c.window), events, y);
      assert Selector(c.window)(x) && Selector(c.window)(y);
    }
  }

  /**
   Rebuilding from the same records gives the same evidence: where a source id names one event,
   the projection depends neither on the order of the log nor on events the window does not select
   (other workspaces, other sessions, sensitive or malformed records).
   */
  lemma RebuildIsStable(c: Context, events: seq<Event>, others: seq<Event>, log: seq<Event>)
    requires CollatesIds(c.host)
    requires multiset(log) == multiset(events) + multiset(others)
    requires forall e :: e in multiset(others) ==> !Selects(c.window, e)
    requires IdsNameOneEvent(multiset(Selected(c, events)))
    ensures Projection(c, log) == Projection(c, events)
  {
    SelectedContents(c, events, others, log);
    SelectedDoNotTie(c, events);
    EventOrderIsTotal(c.host);
    Sorting.SortOrderIndependent(EventOrder(c.host), Selected(c, events), Selected(c, log));
    assert Ordered(c, log) == Ordered(c, events);
  }

  ghost predicate AllBefore<T>(le: (T, T) -> bool, s: seq<T>, t: seq<T>) {
    forall i, j :: 0 <= i < |s| && 0 <= j < |t| ==> le(s[i], t[j])
  }

  lemma PartsOfSorted<T>(le: (T, T) -> bool, s: seq<T>, t: seq<T>)
    requires Sorting.Sorted(le, s + t)
    ensures Sorting.Sorted(le, t) && AllBefore(le, s, t)
  {
    forall i, j | 0 <= i < |s| && 0 <= j < |t| ensures le(s[i], t[j]) {
      assert le((s + t)[i], (s + t)[|s| + j]);
    }
    forall i, j | 0 <= i < j < |t| ensures le(t[i], t[j]) {
      assert le((s + t)[|s| + i], (s + t)[|s| + j]);
    }
  }

  lemma TailOfSorted<T>(le: (T, T) -> bool, sorted: seq<T>, n: nat) returns (dropped: seq<T>)
    requires Sorting.Sorted(le, sorted)
    ensures sorted == dropped + TakeLast(sorted, n)
    ensures Sorting.Sorted(le, TakeLast(sorted, n)) && AllBefore(le, dropped, TakeLast(sorted, n))
  {
    dropped := if |sorted| <= n then [] else sorted[..|sorted| - n];
    assert sorted == dropped + TakeLast(sorted, n);
    PartsOfSorted(le, dropped, TakeLast(sorted, n));
  }

  /**
   The projection is the raw items and the reflection, in timestamp order, cut to the latest two hundred: every item
   is kept or dropped exactly once, and no dropped item sorts after a kept one.
   */
  lemma ProjectionIsSortedTail(c: Context, events: seq<Event>) returns (dropped: seq<Item>)
    requires ValidWindow(c.window) && Sorting.TotalPreorder(c.host.collate)
    ensures var raw := Run(c, Ordered(c, events)).output + ReflectionItems(c);
            var items := Projection(c, events);
            && |items| == Min(|raw|, MAX_EVIDENCE)
            && multiset(dropped) + multiset(items) == multiset(raw)
            && AllBefore(ItemOrder(c.host), dropped, items)
            && (forall i, j :: 0 <= i < j < |items| ==> items[i].timestamp <= items[j].timestamp)
  {
    var raw := Run(c, Ordered(c, events)).output + ReflectionItems(c);
    Sorting.SortSorted(ItemOrder(c.host), raw);
    Sorting.SortMultiset(ItemOrder(c.host), raw);
    dropped := TailOfSorted(ItemOrder(c.host), Sorting.Sort(ItemOrder(c.host), raw), MAX_EVIDENCE);
  }
}
