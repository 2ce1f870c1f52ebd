/**
 The learning-evidence projection (packages/education/src/learning-evidence.ts): an imperative
 pass over the sorted workspace events, and the function it computes.
 */
module Evidence {
  import opened Common
  import Sorting

  datatype Surface = Editor | Chat | Terminal | Flowchart | Learn | Question | Runtime

  datatype Payload =
    | LearningProgress(planApproved: bool)
    | FileChanged(file: string)
    | AutocompleteAccepted(file: string)
    | AgentFilesChanged(files: seq<string>)
    | TestFailed
    | TestPassed
    | ChatPrompted(learnMode: bool)
    | QuestionCompleted
    | OtherActivity

  /** at is the parsed instant in milliseconds; None stands for a date that does not parse. */
  datatype Event = Event(
    payload: Payload, source: Surface, recordedId: Option<string>, origin: string, seqText: string,
    at: Option<int>, workspace: string, session: Option<string>, sensitive: bool)

  datatype Category =
    | PlanApproved | StudentEdit | AgentEdit | AutocompleteEdit | RevisedAgentWork | FailedTest
    | FixAttempted | PassedTest | FixVerified | LearnModeUsed | QuestionPractised | ReflectionCompleted

  datatype Actor = Student | Agent | Mixed

  datatype Basis = Observed | Deterministic

  datatype Item = Item(
    id: string, timestamp: int, projectId: string, sessionId: string, category: Category,
    actor: Actor, basis: Basis, summary: string, references: seq<string>)

  datatype Window = Window(
    projectId: string, workspaceKey: string, sessionId: string, workspaceSessionId: Option<string>,
    startedAt: Option<int>, endedAt: Option<int>, reflectionConfirmedAt: Option<int>)

  /**
   What the host platform supplies: SHA-256 over JSON, localeCompare (as "sorts no later"), the credential-name
   pattern.
   */
  datatype Host = Host(
    digest: (string, string, Category, seq<string>) -> string,
    collate: (string, string) -> bool,
    sensitiveName: string -> bool)

  datatype Context = Context(host: Host, window: Window)

  const EDIT_GROUP_MS := 120_000
  const RELATED_MS := 3_600_000
  const COMPLETION_ECHO_MS := 3_000
  const MAX_REFERENCES := 12
  const MAX_EVIDENCE := 200

  function SourceId(e: Event): string {
    if e.recordedId.Some? then e.recordedId.value else e.origin + ":" + e.seqText
  }

  /** Only consulted for selected events, whose dates parse. */
  function Time(e: Event): int {
    e.at.GetOr(0)
  }

  predicate Digit(c: char) { '0' <= c <= '9' }

  /**
   Thirty-six hexadecimal digits or hyphens, a colon, and a decimal number of one to ten digits without a leading
   zero.
   */
  predicate ValidSourceId(id: string) {
    && 38 <= |id| <= 47
    && (forall i :: 0 <= i < 36 ==> Digit(id[i]) || 'a' <= id[i] <= 'f' || id[i] == '-')
    && id[36] == ':'
    && '1' <= id[37] <= '9'
    && (forall i :: 38 <= i < |id| ==> Digit(id[i]))
  }

  // ----- File names in summaries -----

  function BaseName(file: string): string {
    if file == "" then "" else
    var last := file[|file| - 1];
    if last == '/' then "" else BaseName(file[..|file| - 1]) + [last]
  }

  predicate Alphanumeric(c: char) { Digit(c) || 'a' <= c <= 'z' || 'A' <= c <= 'Z' }

  function SafeFile(h: Host, file: string): (name: string)
    ensures forall i :: 0 <= i < |name| ==> name[i] != ' '
  {
    var name := BaseName(file);
    if && 1 <= |name| <= 80 && Alphanumeric(name[0])
       && (forall i :: 0 <= i < |name| ==> Alphanumeric(name[i]) || name[i] in "._-")
       && !h.sensitiveName(name)
    then name else "file"
  }

  function EditSummary(h: Host, category: Category, file: string): string {
    if category == AutocompleteEdit then "Student accepted AI completion in " + SafeFile(h, file)
    else (if category == StudentEdit then "Student" else "Agent") + " edited " + SafeFile(h, file)
  }

  /** Every run of two or more spaces becomes one. */
  function CollapseSpaces(s: string): string {
    if |s| < 2 then s
    else if s[0] == ' ' && s[1] == ' ' then CollapseSpaces(s[1..])
    else [s[0]] + CollapseSpaces(s[1..])
  }

  /** The summary as rebuilt when an edit joins a group: by actor, with doubled spaces collapsed. */
  function RegroupedSummary(h: Host, actor: Actor, file: string): string {
    CollapseSpaces(
      (match actor case Student => "Student" case Agent => "Agent" case Mixed => "Student accepted AI completion in")
      + " " + (if actor == Mixed then "" else "edited ") + SafeFile(h, file))
  }

  function EditActor(category: Category): Actor {
    match category
    case AgentEdit => Agent
    case AutocompleteEdit => Mixed
    case _ => Student
  }

  predicate EditCategory(category: Category) {
    category == StudentEdit || category == AgentEdit || category == AutocompleteEdit
  }

  // ----- The state of the pass -----

  /** The key `${category}:${file}` of an edit group; no category name holds a colon, so the pair is the same key. */
  datatype Key = Key(category: Category, file: string)

  datatype Group = Group(event: Event, refs: seq<string>, count: nat, index: nat)

  /** The variables of the pass. owner records, for each output position, the edit group it was opened for. */
  datatype Scan = Scan(
    output: seq<Item>, owner: seq<Option<Key>>,
    lastAgentEdit: map<string, Event>, lastAutocomplete: map<string, Event>,
    failed: Option<Event>, attempted: Option<Event>,
    planApproved: bool, planSeen: bool, learnUsed: bool,
    revised: set<string>, grouped: map<Key, Group>)

  const INITIAL := Scan([], [], map[], map[], None, None, false, false, false, {}, map[])

  /** At most twelve distinct references, first occurrences first. */
  function References(ids: seq<string>): seq<string> {
    Take(Distinct(ids), MAX_REFERENCES)
  }

  function MakeItem(c: Context, category: Category, actor: Actor, basis: Basis, at: int, summary: string,
                    ids: seq<string>): Item {
    var refs := References(ids);
    Item(c.host.digest(c.window.projectId, c.window.sessionId, category, refs), at, c.window.projectId,
         c.window.sessionId, category, actor, basis, summary, refs)
  }

  /** Owners of n items that belong to no edit group. */
  function Unowned(n: nat): seq<Option<Key>> {
    seq(n, _ => None)
  }

  /** Items pushed outside the edit groups. */
  function Emit(s: Scan, items: seq<Item>): Scan {
    s.(output := s.output + items, owner := s.owner + Unowned(|items|))
  }

  /** A group of this key whose latest event is at most two minutes back, and whose item is in the output. */
  predicate Joins(s: Scan, key: Key, e: Event) {
    && key in s.grouped
    && Time(e) - Time(s.grouped[key].event) <= EDIT_GROUP_MS
    && s.grouped[key].index < |s.output|
  }

  function JoinedItem(c: Context, key: Key, item: Item, refs: seq<string>): Item {
    item.(references := References(refs),
          id := c.host.digest(c.window.projectId, c.window.sessionId, key.category, References(refs)),
          summary := RegroupedSummary(c.host, EditActor(key.category), key.file))
  }

  function OpenedItem(c: Context, key: Key, e: Event): Item {
    MakeItem(c, key.category, EditActor(key.category), Observed, Time(e), EditSummary(c.host, key.category, key.file),
        [SourceId(e)])
  }

  function EditOutput(c: Context, s: Scan, key: Key, e: Event): seq<Item> {
    if Joins(s, key, e) then
      var prior := s.grouped[key];
      s.output[prior.index := JoinedItem(c, key, s.output[prior.index], prior.refs + [SourceId(e)])]
    else s.output + [OpenedItem(c, key, e)]
  }

  function EditGroup(s: Scan, key: Key, e: Event): Group {
    if Joins(s, key, e) then
      var prior := s.grouped[key];
      Group(e, prior.refs + [SourceId(e)], prior.count + 1, prior.index)
    else Group(e, [SourceId(e)], 1, |s.output|)
  }

  function Edit(c: Context, s: Scan, key: Key, e: Event): Scan {
    s.(output := EditOutput(c, s, key, e),
       owner := if Joins(s, key, e) then s.owner else s.owner + [Some(key)],
       grouped := s.grouped[key := EditGroup(s, key, e)])
  }

  predicate EchoesCompletion(s: Scan, file: string, e: Event) {
    file in s.lastAutocomplete && Time(e) - Time(s.lastAutocomplete[file]) <= COMPLETION_ECHO_MS
  }

  function RevisionKey(agent: Event, file: string): string {
    SourceId(agent) + file
  }

  predicate RevisesAgent(s: Scan, file: string, e: Event) {
    && file in s.lastAgentEdit
    && Time(e) - Time(s.lastAgentEdit[file]) <= RELATED_MS
    && RevisionKey(s.lastAgentEdit[file], file) !in s.revised
  }

  function RevisionItem(c: Context, agent: Event, file: string, e: Event): Item {
    MakeItem(c, RevisedAgentWork, Student, Deterministic, Time(e),
             "Student revised agent work in " + SafeFile(c.host, file), [SourceId(agent), SourceId(e)])
  }

  predicate AttemptsFix(s: Scan, e: Event) {
    s.failed.Some? && Time(e) - Time(s.failed.value) <= RELATED_MS && s.attempted.None?
  }

  function AttemptItem(c: Context, failure: Event, e: Event): Item {
    MakeItem(c, FixAttempted, Student, Deterministic, Time(e), "Student edited after a failed test",
        [SourceId(failure), SourceId(e)])
  }

  function RevisionItems(c: Context, s: Scan, file: string, e: Event): seq<Item> {
    if RevisesAgent(s, file, e) then [RevisionItem(c, s.lastAgentEdit[file], file, e)] else []
  }

  function AttemptItems(c: Context, s: Scan, e: Event): seq<Item> {
    if AttemptsFix(s, e) then [AttemptItem(c, s.failed.value, e)] else []
  }

  function Revise(c: Context, s: Scan, file: string, e: Event): Scan {
    Emit(s, RevisionItems(c, s, file, e))
    .(revised := if RevisesAgent(s, file, e) then s.revised + {RevisionKey(s.lastAgentEdit[file], file)} else s.revised)
  }

  function Attempt(c: Context, s: Scan, e: Event): Scan {
    Emit(s, AttemptItems(c, s, e)).(attempted := if AttemptsFix(s, e) then Some(e) else s.attempted)
  }

  /** The files of one agent event, edited one after the other. */
  function AgentEdits(c: Context, s: Scan, files: seq<string>, e: Event): Scan {
    if files == [] then s else
    var s1 := AgentEdits(c, s, files[..|files| - 1], e);
    var file := files[|files| - 1];
    Edit(c, s1, Key(AgentEdit, file), e).(lastAgentEdit := s1.lastAgentEdit[file := e])
  }

  function TestActor(e: Event, otherwise: Actor): Actor {
    if e.source == Terminal then Student else otherwise
  }

  function PassedItem(c: Context, e: Event): Item {
    MakeItem(c, PassedTest, TestActor(e, Agent), Observed, Time(e), "Tests passed", [SourceId(e)])
  }

  function VerifiedItem(c: Context, failure: Event, change: Event, e: Event): Item {
    MakeItem(c, FixVerified, TestActor(e, Mixed), Deterministic, Time(e), "Tests passed after student's edit",
             [SourceId(failure), SourceId(change), SourceId(e)])
  }

  predicate VerifiesFix(s: Scan, e: Event) {
    s.failed.Some? && s.attempted.Some? && Time(e) - Time(s.failed.value) <= RELATED_MS
  }

  function VerifiedItems(c: Context, s: Scan, e: Event): seq<Item> {
    if VerifiesFix(s, e) then [VerifiedItem(c, s.failed.value, s.attempted.value, e)] else []
  }

  function Pass(c: Context, s: Scan, e: Event): Scan {
    var s1 := Emit(s, [PassedItem(c, e)]);
    Emit(s1, VerifiedItems(c, s1, e)).(failed := None, attempted := None)
  }

  function FailedItem(c: Context, e: Event): Item {
    MakeItem(c, FailedTest, TestActor(e, Agent), Observed, Time(e), "Test failed", [SourceId(e)])
  }

  function Fail(c: Context, s: Scan, e: Event): Scan {
    Emit(s, [FailedItem(c, e)]).(failed := Some(e), attempted := None)
  }

  function ApprovalItem(c: Context, e: Event): Item {
    MakeItem(c, PlanApproved, Student, Deterministic, Time(e), "Student plan approved", [SourceId(e)])
  }

  function LearnItem(c: Context, e: Event): Item {
    MakeItem(c, LearnModeUsed, Student, Observed, Time(e), "Used Learn Mode for an AI turn", [SourceId(e)])
  }

  function PracticeItem(c: Context, e: Event): Item {
    MakeItem(c, QuestionPractised, Student, Observed, Time(e), "Completed /question practice", [SourceId(e)])
  }

  function Progress(c: Context, s: Scan, approved: bool, e: Event): Scan {
    Emit(s, if s.planSeen && approved && !s.planApproved then [ApprovalItem(c, e)] else [])
    .(planApproved := approved, planSeen := true)
  }

  function EditorChange(c: Context, s: Scan, file: string, e: Event): Scan {
    Attempt(c, Revise(c, Edit(c, s, Key(StudentEdit, file), e), file, e), e)
  }

  function Completion(c: Context, s: Scan, file: string, e: Event): Scan {
    Edit(c, s, Key(AutocompleteEdit, file), e).(lastAutocomplete := s.lastAutocomplete[file := e])
  }

  function LearnTurn(c: Context, s: Scan, learnMode: bool, e: Event): Scan {
    Emit(s, if learnMode && !s.learnUsed then [LearnItem(c, e)] else []).(learnUsed := s.learnUsed || learnMode)
  }

  function Step(c: Context, s: Scan, e: Event): Scan {
    match e.payload
    case LearningProgress(approved) => Progress(c, s, approved, e)
    case FileChanged(file) => if e.source != Editor || EchoesCompletion(s, file, e) then s
        else EditorChange(c, s, file, e)
    case AutocompleteAccepted(file) => if e.source == Editor then Completion(c, s, file, e) else s
    case AgentFilesChanged(files) => if e.source == Chat then AgentEdits(c, s, files, e) else s
    case TestFailed => Fail(c, s, e)
    case TestPassed => Pass(c, s, e)
    case ChatPrompted(learnMode) => LearnTurn(c, s, learnMode, e)
    case QuestionCompleted => Emit(s, [PracticeItem(c, e)])
    case OtherActivity => s
  }

  /** The state after the events of p. */
  function Run(c: Context, p: seq<Event>): Scan {
    if p == [] then INITIAL else Step(c, Run(c, p[..|p| - 1]), p[|p| - 1])
  }

  lemma RunSnoc(c: Context, p: seq<Event>, e: Event)
    ensures Run(c, p + [e]) == Step(c, Run(c, p), e)
  {
    assert (p + [e])[..|p|] == p;
  }

  // ----- The whole projection -----

  predicate Selects(w: Window, e: Event) {
    && e.workspace == w.workspaceKey && !e.sensitive && ValidSourceId(SourceId(e))
    && e.at.Some? && w.startedAt.Some? && w.endedAt.Some?
    && w.startedAt.value <= e.at.value <= w.endedAt.value
    && (e.session.None? || e.session == w.workspaceSessionId)
  }

  predicate EventLe(h: Host, a: Event, b: Event) {
    Time(a) < Time(b) || (Time(a) == Time(b) && h.collate(SourceId(a), SourceId(b)))
  }

  predicate ItemLe(h: Host, a: Item, b: Item) {
    a.timestamp < b.timestamp || (a.timestamp == b.timestamp && h.collate(a.id, b.id))
  }

  /** The two comparators, as sort takes them. */
  function EventOrder(h: Host): (Event, Event) -> bool {
    (a, b) => EventLe(h, a, b)
  }

  function ItemOrder(h: Host): (Item, Item) -> bool {
    (a, b) => ItemLe(h, a, b)
  }

  predicate ValidWindow(w: Window) {
    && w.projectId != "" && w.workspaceKey != "" && w.sessionId != ""
    && w.startedAt.Some? && w.endedAt.Some? && w.startedAt.value <= w.endedAt.value
  }

  function Selector(w: Window): Event -> bool {
    e => Selects(w, e)
  }

  function Selected(c: Context, events: seq<Event>): seq<Event> {
    Filter(Selector(c.window), events)
  }

  function Ordered(c: Context, events: seq<Event>): seq<Event> {
    Sorting.Sort(EventOrder(c.host), Selected(c, events))
  }

  /** The item of a confirmed reflection, if it was confirmed inside the window. */
  function ReflectionItems(c: Context): seq<Item>
    requires ValidWindow(c.window)
  {
    var at := c.window.reflectionConfirmedAt;
    if at.Some? && c.window.startedAt.value <= at.value <= c.window.endedAt.value
    then [MakeItem(c, ReflectionCompleted, Student, Observed, at.value, "Student confirmed a reflection",
                   ["session-reflection:" + c.window.sessionId])]
    else []
  }

  function Projection(c: Context, events: seq<Event>): seq<Item> {
    if !ValidWindow(c.window) then [] else
    TakeLast(Sorting.Sort(ItemOrder(c.host), Run(c, Ordered(c, events)).output + ReflectionItems(c)), MAX_EVIDENCE)
  }

  /** The captured variables of deriveLearningEvidence, with its closures as methods. */
  class Projector {
    const c: Context
    var output: seq<Item>
    ghost var owner: seq<Option<Key>>
    var lastAgentEdit: map<string, Event>
    var lastAutocomplete: map<string, Event>
    var failed: Option<Event>
    var attempted: Option<Event>
    var planApproved: bool
    var planSeen: bool
    var learnUsed: bool
    var revised: set<string>
    var grouped: map<Key, Group>

    ghost function State(): Scan
      reads this
    {
      Scan(output, owner, lastAgentEdit, lastAutocomplete, failed, attempted, planApproved, planSeen, learnUsed,
          revised, grouped)
    }

    constructor (context: Context)
      ensures c == context && State() == INITIAL
    {
      c := context;
      output, owner := [], [];
      lastAgentEdit, lastAutocomplete := map[], map[];
      failed, attempted := None, None;
      planApproved, planSeen, learnUsed := false, false, false;
      revised, grouped := {}, map[];
    }

    method Add(category: Category, actor: Actor, basis: Basis, at: int, summary: string, ids: seq<string>,
               ghost key: Option<Key>)
      modifies this`output, this`owner
      ensures output == old(output) + [MakeItem(c, category, actor, basis, at, summary, ids)]
                && owner == old(owner) + [key]
    {
      var refs := References(ids);
      var id := c.host.digest(c.window.projectId, c.window.sessionId, category, refs);
      output := output + [Item(id, at, c.window.projectId, c.window.sessionId, category, actor, basis, summary, refs)];
      owner := owner + [key];
    }

    method EditFile(category: Category, file: string, e: Event)
      modifies this`output, this`owner, this`grouped
      ensures State() == Edit(c, old(State()), Key(category, file), e)
    {
      var key, actor := Key(category, file), EditActor(category);
      if key in grouped {
        var prior := grouped[key];
        if Time(e) - Time(prior.event) <= EDIT_GROUP_MS && prior.index < |output| {
          var refs := prior.refs + [SourceId(e)];
          grouped := grouped[key := Group(e, refs, prior.count + 1, prior.index)];
          var item := output[prior.index].(references := References(refs));
          item := item.(id := c.host.digest(c.window.projectId, c.window.sessionId, category, item.references));
          item := item.(summary := RegroupedSummary(c.host, actor, file));
          output := output[prior.index := item];
          return;
        }
      }
      Add(category, actor, Observed, Time(e), EditSummary(c.host, category, file), [SourceId(e)], Some(key));
      grouped := grouped[key := Group(e, [SourceId(e)], 1, |output| - 1)];
    }

    method NoteRevision(file: string, e: Event)
      modifies this`output, this`owner, this`revised
      ensures State() == Revise(c, old(State()), file, e)
    {
      if file in lastAgentEdit {
        var agent := lastAgentEdit[file];
        if Time(e) - Time(agent) <= RELATED_MS && SourceId(agent) + file !in revised {
          Add(RevisedAgentWork, Student, Deterministic, Time(e),
              "Student revised agent work in " + SafeFile(c.host, file), [SourceId(agent), SourceId(e)], None);
          revised := revised + {SourceId(agent) + file};
        }
      }
    }

    method NoteAttempt(e: Event)
      modifies this`output, this`owner, this`attempted
      ensures State() == Attempt(c, old(State()), e)
    {
      if failed.Some? && Time(e) - Time(failed.value) <= RELATED_MS && attempted.None? {
        attempted := Some(e);
        Add(FixAttempted, Student, Deterministic, Time(e), "Student edited after a failed test",
            [SourceId(failed.value), SourceId(e)], None);
      }
    }

    method AgentChanges(files: seq<string>, e: Event)
      modifies this`output, this`owner, this`grouped, this`lastAgentEdit
      ensures State() == AgentEdits(c, old(State()), files, e)
    {
      ghost var before := State();
      for i := 0 to |files|
        invariant State() == AgentEdits(c, before, files[..i], e)
      {
        EditFile(AgentEdit, files[i], e);
        lastAgentEdit := lastAgentEdit[files[i] := e];
        assert files[..i + 1][..i] == files[..i];
      }
      assert files[..|files|] == files;
    }

    method OnProgress(approved: bool, e: Event)
      modifies this`output, this`owner, this`planApproved, this`planSeen
      ensures State() == Progress(c, old(State()), approved, e)
    {
      if planSeen && approved && !planApproved {
        Add(PlanApproved, Student, Deterministic, Time(e), "Student plan approved", [SourceId(e)], None);
      }
      planApproved := approved;
      planSeen := true;
    }

    method NoteVerified(e: Event)
      modifies this`output, this`owner
      ensures State() == Emit(old(State()), VerifiedItems(c, old(State()), e))
    {
      if failed.Some? && attempted.Some? && Time(e) - Time(failed.value) <= RELATED_MS {
        Add(FixVerified, TestActor(e, Mixed), Deterministic, Time(e), "Tests passed after student's edit",
            [SourceId(failed.value), SourceId(attempted.value), SourceId(e)], None);
      }
    }

    method OnTestPassed(e: Event)
      modifies this`output, this`owner, this`failed, this`attempted
      ensures State() == Pass(c, old(State()), e)
    {
      ghost var before := State();
      Add(PassedTest, TestActor(e, Agent), Observed, Time(e), "Tests passed", [SourceId(e)], None);
      assert State() == Emit(before, [PassedItem(c, e)]);
      NoteVerified(e);
      failed, attempted := None, None;
    }

    method OnTestFailed(e: Event)
      modifies this`output, this`owner, this`failed, this`attempted
      ensures State() == Fail(c, old(State()), e)
    {
      failed, attempted := Some(e), None;
      Add(FailedTest, TestActor(e, Agent), Observed, Time(e), "Test failed", [SourceId(e)], None);
    }

    method OnPrompt(learnMode: bool, e: Event)
      modifies this`output, this`owner, this`learnUsed
      ensures State() == LearnTurn(c, old(State()), learnMode, e)
    {
      if learnMode && !learnUsed {
        learnUsed := true;
        Add(LearnModeUsed, Student, Observed, Time(e), "Used Learn Mode for an AI turn", [SourceId(e)], None);
      }
    }

    method OnCompletion(file: string, e: Event)
      modifies this`output, this`owner, this`grouped, this`lastAutocomplete
      ensures State() == Completion(c, old(State()), file, e)
    {
      EditFile(AutocompleteEdit, file, e);
      lastAutocomplete := lastAutocomplete[file := e];
    }

    method OnEditorChange(file: string, e: Event)
      modifies this`output, this`owner, this`grouped, this`revised, this`attempted
      ensures State() == if EchoesCompletion(old(State()), file, e) then old(State())
                else EditorChange(c, old(State()), file, e)
    {
      if file in lastAutocomplete && Time(e) - Time(lastAutocomplete[file]) <= COMPLETION_ECHO_MS { return; }
      EditFile(StudentEdit, file, e);
      NoteRevision(file, e);
      NoteAttempt(e);
    }

    method Process(e: Event)
      modifies this
      ensures State() == Step(c, old(State()), e)
    {
      match e.payload
      case LearningProgress(approved) => OnProgress(approved, e);
      case FileChanged(file) => if e.source == Editor { OnEditorChange(file, e); }
      case AutocompleteAccepted(file) => if e.source == Editor { OnCompletion(file, e); }
      case AgentFilesChanged(files) => if e.source == Chat { AgentChanges(files, e); }
      case TestFailed => OnTestFailed(e);
      case TestPassed => OnTestPassed(e);
      case ChatPrompted(learnMode) => OnPrompt(learnMode, e);
      case QuestionCompleted =>
        Add(QuestionPractised, Student, Observed, Time(e), "Completed /question practice", [SourceId(e)], None);
      case OtherActivity =>
    }
  }

  /** The loop over the selected events. */
  method ProcessAll(c: Context, selected: seq<Event>) returns (pass: Projector)
    ensures fresh(pass) && pass.c == c && pass.State() == Run(c, selected)
  {
    pass := new Projector(c);
    for i := 0 to |selected|
      invariant pass.c == c && pass.State() == Run(c, selected[..i])
    {
      RunSnoc(c, selected[..i], selected[i]);
      assert selected[..i + 1] == selected[..i] + [selected[i]];
      pass.Process(selected[i]);
    }
    assert selected[..|selected|] == selected;
  }

  method DeriveLearningEvidence(c: Context, events: seq<Event>) returns (items: seq<Item>)
    ensures items == Projection(c, events)
  {
    if !ValidWindow(c.window) { return []; }
    var selected := Ordered(c, events);
    var pass := ProcessAll(c, selected);
    var at := c.window.reflectionConfirmedAt;
    if at.Some? && c.window.startedAt.value <= at.value <= c.window.endedAt.value {
      pass.Add(ReflectionCompleted, Student, Observed, at.value, "Student confirmed a reflection",
               ["session-reflection:" + c.window.sessionId], None);
    }
    assert pass.output == Run(c, selected).output + ReflectionItems(c);
    items := TakeLast(Sorting.Sort(ItemOrder(c.host), pass.output), MAX_EVIDENCE);
  }
}
