/**
 The publish protocol (class PublishingService in packages/publishing/src/publishing-service.ts) against an
 environment in which any call may give any reply or fail.
 */
module PublishingService {
  import opened Common
  import opened PublishingTrace

  datatype PagesState = Built | Errored | OtherState

  /** What a step can fail with: the message of a fault, or a refusal of the service. */
  datatype Failure =
    | Thrown(message: string) | NotConnected | Unsupported(reason: string) | ConnectionLost | SecretsFound(issues: nat)
    | OriginNotGitHub | OriginMismatch | Unavailable | Cancelled | NoFreeName | OtherOrigin
    | BuildFailed | TimedOut | NoSite

  /** One reply of the environment. Each call reads the part that concerns it, unless there is a fault. */
  datatype Answer = Answer(
    fault: Option<string>, connected: bool, username: string,
    supported: bool, reason: string, fromBranch: bool, branch: string, remote: Remote, managed: bool, issues: nat,
    found: Option<Repository>, created: Repository, consent: bool,
    text: string, pages: PagesState, pagesUrl: string, pagesCommit: string, now: int)

  /** GitHub, git, the file system and the clock, as a script of replies; the record on disk; and the effects so far. */
  class Environment {
    const answers: nat -> Answer
    var step: nat
    var stored: Option<Metadata>
    ghost var trace: Trace

    ghost predicate Valid()
      reads this
    {
      && Legal(trace) && stored == Saved(trace) && ClockMonotone(answers)
      && HistoryBefore(SavedDeployment(trace), answers(step).now)
    }

    constructor (answers: nat -> Answer)
      requires ClockMonotone(answers)
      ensures Valid() && this.answers == answers && step == 0 && stored == None && trace == []
    {
      this.answers := answers;
      step, stored, trace := 0, None, [];
    }

    method Ask() returns (a: Answer)
      requires Valid()
      modifies this`step
      ensures Valid() && step == old(step) + 1 && a == answers(old(step)) && a.now <= answers(step).now
    {
      a := answers(step);
      assert NotLater(answers, step, step + 1);
      step := step + 1;
    }

    /** Any call that can fail and leaves no mark in the trace. */
    method Call() returns (r: Result<Answer, Failure>)
      requires Valid()
      modifies this`step
      ensures Valid() && step == old(step) + 1
      ensures r == if answers(old(step)).fault.Some? then Err(Thrown(answers(old(step)).fault.value))
                else Ok(answers(old(step)))
    {
      var a := Ask();
      r := if a.fault.Some? then Err(Thrown(a.fault.value)) else Ok(a);
    }

    ghost method Note(e: Event)
      requires Valid() && Allowed(trace, e) && !e.Recorded?
      modifies this`trace
      ensures Valid() && trace == old(trace) + [e]
      ensures Saved(trace) == Saved(old(trace))
    {
      LegalNext(trace, e);
      assert (trace + [e])[..|trace|] == trace;
      trace := trace + [e];
    }

    /**
     The local copy m can still be written if the call fails now, and a new repository will not go unrecorded without
     two failed writes.
     */
    ghost predicate CanFail(m: Metadata)
      reads this
    {
      && !Idle(trace) && Writable(m, trace, answers(step).now)
      && (Unsaved(trace) ==> m.deployment.Some? && FailedWritesAtEnd(trace) >= 1)
    }

    /** The record on disk is the local copy. */
    ghost predicate Holds(m: Metadata)
      reads this
    {
      Saved(trace) == Some(m) && !Unsaved(trace) && m.github.Some? && m.deployment.Some?
    }

    /** Writes the local copy of the record in the course of a publish. */
    method Keep(m: Metadata) returns (r: Result<(), Failure>)
      requires Valid() && !Idle(trace) && Writable(m, trace, answers(step).now) && m.github.Some? && m.deployment.Some?
      modifies this
      ensures Valid() && old(trace) <= trace && CanFail(m) && step == old(step) + 1
      ensures r.Ok? <==> answers(old(step)).fault.None?
      ensures r.Ok? ==> Holds(m) && trace == old(trace) + [Recorded(m)]
      ensures r.Err? ==> trace == old(trace) + [WriteFailed] && Saved(trace) == Saved(old(trace))
      ensures Chosen(trace) == Chosen(old(trace)) && (Unsaved(trace) <==> r.Err? && Unsaved(old(trace)))
      ensures r.Ok? && Chosen(trace).Some? ==> NamesChosen(trace)
    {
      RecordedNext(trace, m);
      WriteFailedNext(trace);
      assert NotLater(answers, step, step + 1);
      r := Write(m);
    }

    /** Writes the record, or fails and leaves the old one. */
    method Write(m: Metadata) returns (r: Result<(), Failure>)
      requires Valid() && Allowed(trace, Recorded(m)) && HistoryBefore(m.deployment, answers(step).now)
      modifies this
      ensures Valid() && step == old(step) + 1
      ensures r.Ok? <==> answers(old(step)).fault.None?
      ensures r.Ok? ==> stored == Some(m) && trace == old(trace) + [Recorded(m)]
      ensures r.Err? ==> stored == old(stored) && trace == old(trace) + [WriteFailed]
      ensures r.Err? ==> r.error == Thrown(answers(old(step)).fault.GetOr(""))
    {
      var a := Ask();
      if a.fault.Some? {
        Note(WriteFailed);
        return Err(Thrown(a.fault.value));
      }
      LegalNext(trace, Recorded(m));
      trace := trace + [Recorded(m)];
      stored := Some(m);
      return Ok(());
    }
  }

  ghost predicate ClockMonotone(answers: nat -> Answer) {
    forall i, j :: i <= j ==> NotLater(answers, i, j)
  }

  ghost predicate NotLater(answers: nat -> Answer, i: nat, j: nat) {
    answers(i).now <= answers(j).now
  }

  ghost predicate HistoryBefore(deployment: Option<Deployment>, now: int) {
    deployment.Some? ==> forall i :: 0 <= i < |deployment.value.history| ==> deployment.value.history[i].at <= now
  }

  // ----- Changes of the record -----

  function History(d: Option<Deployment>): seq<Entry> {
    if d.Some? then d.value.history else []
  }

  function WithRepository(m: Metadata, r: Repository, branch: string, consentAt: Option<int>): Metadata {
    Metadata(
      Some(Github(r.owner, r.name, branch, r.url, consentAt)),
      Some(if m.deployment.Some? then m.deployment.value.(status := Preparing, repositoryUrl := r.url, branch := branch)
           else Deployment(Preparing, None, r.url, branch, None, None, None, [])))
  }

  function AsDeploying(m: Metadata, managed: bool): Metadata
    requires m.deployment.Some?
  {
    m.(deployment := Some(m.deployment.value.(status := Deploying, managedWorkflow := Some(managed))))
  }

  function AsPublished(m: Metadata, url: string, commit: string, now: int): Metadata
    requires m.deployment.Some?
  {
    m.(deployment := Some(m.deployment.value.(
      status := Published, url := Some(url), lastPublishedAt := Some(now), lastError := None,
      history := Take([Entry(true, Some(commit), now, None)] + m.deployment.value.history, MAX_HISTORY))))
  }

  function AsFailed(m: Metadata, commit: Option<string>, now: int, message: string): Metadata
    requires m.deployment.Some?
  {
    m.(deployment := Some(m.deployment.value.(
      status := Failed, lastError := Some(Take(message, 1000)),
      history := Take([Entry(false, commit, now, Some(Take(message, 500)))] + m.deployment.value.history,
          MAX_HISTORY))))
  }

  lemma EntryInFront(history: seq<Entry>, entry: Entry)
    requires NewestFirst(history) && forall i :: 0 <= i < |history| ==> history[i].at <= entry.at
    ensures NewestFirst(Take([entry] + history, MAX_HISTORY)) && |Take([entry] + history, MAX_HISTORY)| <= MAX_HISTORY
    ensures forall i :: 0 <= i < |Take([entry] + history, MAX_HISTORY)| ==>
              Take([entry] + history, MAX_HISTORY)[i].at <= entry.at
  {
  }

  /** What the local copy of the record must satisfy so that it can be written, also after a failure. */
  ghost predicate Writable(m: Metadata, t: Trace, now: int) {
    && HistoryFine(m) && HistoryBefore(m.deployment, now)
    && (if Chosen(t).Some? then Names(m.github, Chosen(t).value) else m.github == SavedGithub(t))
    && (m.deployment.None? ==> SavedDeployment(t).None?)
  }

  lemma SavedIsWritable(m: Metadata, t: Trace, now: int)
    requires Legal(t) && Chosen(t).None? && m == Saved(t).GetOr(Metadata(None, None))
    requires HistoryBefore(SavedDeployment(t), now)
    ensures Writable(m, t, now)
  {
    HistoryStaysFine(t);
  }

  lemma WithRepositoryIsWritable(m: Metadata, r: Repository, branch: string, consentAt: Option<int>, t: Trace, now: int)
    requires Legal(t) && Chosen(t) == Some(r) && m == Saved(t).GetOr(Metadata(None, None))
    requires HistoryBefore(SavedDeployment(t), now)
    ensures Writable(WithRepository(m, r, branch, consentAt), t, now)
  {
    HistoryStaysFine(t);
  }

  lemma FailedIsWritable(m: Metadata, t: Trace, commit: Option<string>, now: int, message: string)
    requires Writable(m, t, now) && m.deployment.Some?
    ensures Writable(AsFailed(m, commit, now, message), t, now)
  {
    EntryInFront(m.deployment.value.history, Entry(false, commit, now, Some(Take(message, 500))));
  }

  lemma PublishedIsWritable(m: Metadata, t: Trace, url: string, commit: string, now: int)
    requires Writable(m, t, now) && m.deployment.Some?
    ensures Writable(AsPublished(m, url, commit, now), t, now)
  {
    EntryInFront(m.deployment.value.history, Entry(true, Some(commit), now, None));
  }

  const NOWHERE := Repository("", "", "")

  /** The repository chosen for a publish. */
  datatype Choice = Choice(repository: Repository, consentAt: Option<int>, branch: string, managed: bool)

  lemma AppendTwo(t: Trace, a: Trace, b: Trace)
    ensures t + a + b == t + (a + b)
  {
  }

  lemma PrefixTransitive(a: Trace, b: Trace, c: Trace)
    requires a <= b && b <= c
    ensures a <= c
  {
  }

  // ----- Names of new repositories -----

  function NameOf(base: string, suffix: nat): string {
    if suffix == 0 then base else base + "-" + Decimal(suffix + 1)
  }

  /** A status report belongs to the expected commit if either is unknown or one abbreviates the other. */
  predicate CurrentBuild(expected: string, reported: string) {
    expected == "" || reported == "" || expected <= reported || reported <= expected
  }

  /** What the preparation of a publish finds out. */
  datatype Prepared = Prepared(branch: string, remote: Remote, managed: bool)

  /** The repository a project already has: that of origin, else the saved one. */
  function Existing(github: Option<Github>, remote: Remote): Option<(string, string)> {
    if remote.GitHubRemote? then Some((remote.owner, remote.name))
    else if github.Some? then Some((github.value.owner, github.value.repo))
    else None
  }

  /** What the scan and the origin remote have against publishing, if anything. */
  function Problem(issues: nat, remote: Remote, github: Option<Github>): Option<Failure> {
    if issues != 0 then Some(SecretsFound(issues))
    else if remote.OtherRemote? then Some(OriginNotGitHub)
    else if remote.GitHubRemote? && github.Some?
        && (remote.owner != github.value.owner || remote.name != github.value.repo)
    then Some(OriginMismatch)
    else None
  }

  lemma ProblemMeans(issues: nat, remote: Remote, github: Option<Github>)
    ensures Problem(issues, remote, github).None? <==> issues == 0 && Agrees(remote, github)
  {
  }

  // ----- The service -----

  class Publisher {
    const env: Environment
    const maxStatusChecks: nat
    const confirms: bool
    const wording: Failure -> string

    constructor (env: Environment, maxStatusChecks: nat, confirms: bool, wording: Failure -> string)
      ensures this.env == env && this.maxStatusChecks == maxStatusChecks && this.confirms == confirms
      ensures this.wording == wording
    {
      this.env, this.maxStatusChecks, this.confirms, this.wording := env, maxStatusChecks, confirms, wording;
    }

    // Which replies let a step succeed.

    predicate Fine(s: nat) {
      env.answers(s).fault.None?
    }

    /** The replies from step s on let connection, project type, git, workflow and branch files succeed. */
    predicate FilesReady(s: nat) {
      && Fine(s) && env.answers(s).connected && env.answers(s).username != ""
      && Fine(s + 1) && env.answers(s + 1).supported && Fine(s + 2) && Fine(s + 3)
      && (env.answers(s + 1).fromBranch ==> Fine(s + 4))
    }

    function FilesSteps(s: nat): nat {
      if env.answers(s + 1).fromBranch then 5 else 4
    }

    function RemoteAt(s: nat): Remote {
      env.answers(s + 2).remote
    }

    function PreparedAt(s: nat): Prepared {
      Prepared(env.answers(s + 2).branch, RemoteAt(s), env.answers(s + 3).managed)
    }

    /** The replies from step s on let the preparation succeed for a project with this repository on record. */
    predicate ReadyAt(s: nat, github: Option<Github>) {
      && FilesReady(s) && Fine(s + FilesSteps(s))
      && Problem(env.answers(s + FilesSteps(s)).issues, RemoteAt(s), github).None?
    }

    /** In the attempt at the name with suffix j, GitHub is connected and says whether the name is taken. */
    predicate Asked(start: nat, j: nat) {
      Fine(start + 2 * j) && env.answers(start + 2 * j).username != "" && Fine(start + 2 * j + 1)
    }

    /** The repository asked for in attempt j exists already. */
    predicate Taken(start: nat, j: nat) {
      env.answers(start + 2 * j + 1).found.Some?
    }

    /** The name with suffix k is the first free one, and its repository is created. */
    predicate CreatesAt(start: nat, k: nat) {
      TakenUntil(start, k) && Asked(start, k) && !Taken(start, k) && Fine(start + 2 * k + 2)
    }

    predicate TakenUntil(start: nat, k: nat) {
      forall j :: 0 <= j < k ==> Asked(start, j) && Taken(start, j)
    }

    predicate CanCreate(start: nat) {
      exists k :: 0 <= k < 50 && CreatesAt(start, k)
    }

    /** The suffix of the first free name. */
    ghost function FreeName(start: nat): nat
      requires CanCreate(start)
    {
      var k :| 0 <= k < 50 && CreatesAt(start, k);
      k
    }

    lemma FreeNameIs(start: nat, k: nat)
      requires k < 50 && CreatesAt(start, k)
      ensures CanCreate(start) && FreeName(start) == k
      ensures CreatedAt(start) == env.answers(start + 2 * k + 2).created
    {
    }

    lemma TakenNext(start: nat, k: nat)
      requires TakenUntil(start, k) && Asked(start, k) && Taken(start, k)
      ensures TakenUntil(start, k + 1)
    {
    }

    lemma AllTaken(start: nat)
      requires TakenUntil(start, 50)
      ensures !CanCreate(start)
    {
    }

    lemma NoFreeNameAt(start: nat, k: nat)
      requires !Asked(start, k) || (!Taken(start, k) && !Fine(start + 2 * k + 2))
      requires TakenUntil(start, k)
      ensures !CanCreate(start)
    {
    }

    ghost function CreatedAt(start: nat): Repository
      requires CanCreate(start)
    {
      env.answers(start + 2 * FreeName(start) + 2).created
    }

    predicate ConsentsAt(s: nat) {
      confirms && Fine(s) && env.answers(s).consent
    }

    /** The replies from step c on give a repository: a known one is found, or a new one is consented to and created. */
    predicate CanChoose(c: nat, github: Option<Github>, remote: Remote) {
      if Existing(github, remote).Some? then Fine(c) && env.answers(c).found.Some?
      else ConsentsAt(c) && CanCreate(c + 1)
    }

    ghost function ChosenFrom(c: nat, github: Option<Github>, remote: Remote): Repository
      requires CanChoose(c, github, remote)
    {
      if Existing(github, remote).Some? then env.answers(c).found.value else CreatedAt(c + 1)
    }

    ghost function ChoosingSteps(c: nat, github: Option<Github>, remote: Remote): nat
      requires CanChoose(c, github, remote)
    {
      if Existing(github, remote).Some? then 1 else 2 * FreeName(c + 1) + 5
    }

    ghost function ChoosingEvents(c: nat, github: Option<Github>, remote: Remote, base: string): Trace
      requires CanChoose(c, github, remote)
    {
      var known := Existing(github, remote);
      if known.Some? then [LookedUp(known.value.0, known.value.1, Some(ChosenFrom(c, github, remote)))]
      else [Consented] + [Created(NameOf(base, FreeName(c + 1)), CreatedAt(c + 1))]
    }

    /** The first step after the scan. */
    function ChoosingAt(s: nat): nat {
      s + FilesSteps(s) + 1
    }

    /** The replies from step s on let a repository be chosen. */
    predicate ChoiceAt(s: nat, github: Option<Github>) {
      ReadyAt(s, github) && CanChoose(ChoosingAt(s), github, RemoteAt(s))
    }

    /** The repository that the replies from step s on lead to. */
    ghost function ChosenAt(s: nat, github: Option<Github>): Repository
      requires ChoiceAt(s, github)
    {
      ChosenFrom(ChoosingAt(s), github, RemoteAt(s))
    }

    ghost function ChoiceEvents(s: nat, github: Option<Github>, base: string): Trace
      requires ChoiceAt(s, github)
    {
      [Scanned(0, RemoteAt(s))] + ChoosingEvents(ChoosingAt(s), github, RemoteAt(s), base)
    }

    /** The step of the first write of the record. */
    ghost function WriteAt(s: nat, github: Option<Github>): nat
      requires ChoiceAt(s, github)
    {
      ChoosingAt(s) + ChoosingSteps(ChoosingAt(s), github, RemoteAt(s))
    }

    /** The chosen repository gets on record: at the first write or, if that fails, with the record of the failure. */
    ghost predicate KeptAt(s: nat, github: Option<Github>)
      requires ChoiceAt(s, github)
    {
      Fine(WriteAt(s, github)) || Fine(WriteAt(s, github) + 2)
    }

    /** A new repository is created, and both writes of its record fail. */
    ghost predicate LosesAt(s: nat, github: Option<Github>) {
      && ChoiceAt(s, github) && Existing(github, RemoteAt(s)).None?
      && !Fine(WriteAt(s, github)) && !Fine(WriteAt(s, github) + 2)
    }

    /**
     Of the calls from this step on, the second names changed files, or the third no commit: one more call makes a
     commit.
     */
    predicate CommitNeeded(s: nat) {
      env.answers(s + 1).text != "" || env.answers(s + 2).text == ""
    }

    function CommitSteps(s: nat): nat {
      if CommitNeeded(s) then 5 else 4
    }

    /** Files are added, changes and the current commit are read, and a commit is made where one is needed. */
    predicate Commits(s: nat) {
      Fine(s) && Fine(s + 1) && Fine(s + 2) && (CommitNeeded(s) ==> Fine(s + 3))
    }

    predicate CommitsAt(s: nat) {
      Commits(s) && Fine(s + CommitSteps(s) - 1)
    }

    function CommitAt(s: nat): string {
      env.answers(s + CommitSteps(s) - 1).text
    }

    function CommitEvents(s: nat): Trace {
      if Commits(s) && CommitNeeded(s) then [Committed(env.answers(s + 2).text != "")] else []
    }

    /** Origin is absent and can be added, or names the repository. */
    predicate OriginAt(s: nat, repository: Repository) {
      && Fine(s)
      && match env.answers(s).remote
         case NoRemote => Fine(s + 1)
         case GitHubRemote(owner, name) => owner == repository.owner && name == repository.name
         case OtherRemote => false
    }

    function OriginSteps(s: nat): nat {
      if env.answers(s).remote.NoRemote? then 2 else 1
    }

    predicate PushesAt(s: nat, repository: Repository) {
      OriginAt(s, repository) && Fine(s + OriginSteps(s))
    }

    function PushSteps(s: nat): nat {
      OriginSteps(s) + 1
    }

    /** Commit, origin, push and the second write succeed. */
    predicate DeliversAt(s: nat, repository: Repository) {
      && CommitsAt(s) && PushesAt(s + CommitSteps(s), repository)
      && Fine(s + CommitSteps(s) + PushSteps(s + CommitSteps(s)))
    }

    function DeliverySteps(s: nat): nat {
      CommitSteps(s) + PushSteps(s + CommitSteps(s)) + 1
    }

    /** The reply at step k says that the expected commit is built and served at this address. */
    predicate ReportsBuilt(k: nat, commit: string, url: string) {
      var a := env.answers(k);
      a.fault.None? && a.pages.Built? && a.pagesUrl == url && url != "" && CurrentBuild(commit, a.pagesCommit)
    }

    predicate ReportsError(k: nat, commit: string) {
      Fine(k) && env.answers(k).pages.Errored? && CurrentBuild(commit, env.answers(k).pagesCommit)
    }

    /** Check number j reports neither success nor failure of the expected build. */
    predicate Pending(s: nat, commit: string, j: nat) {
      var k := s + 2 * j;
      Fine(k) && !ReportsError(k, commit) && !ReportsBuilt(k, commit, env.answers(k).pagesUrl)
    }

    predicate Waits(s: nat, j: nat) {
      Fine(s + 2 * j + 1)
    }

    /** The checks before number k find the build pending, and each is followed by a wait. */
    predicate PendingUntil(s: nat, commit: string, k: nat) {
      forall j :: 0 <= j < k ==> Pending(s, commit, j) && Waits(s, j)
    }

    /** Check number k is the first to report the expected build, as finished. */
    predicate BuiltAt(s: nat, commit: string, k: nat) {
      PendingUntil(s, commit, k) && ReportsBuilt(s + 2 * k, commit, env.answers(s + 2 * k).pagesUrl)
    }

    predicate BuildFailsAt(s: nat, commit: string, k: nat) {
      PendingUntil(s, commit, k) && ReportsError(s + 2 * k, commit)
    }

    predicate BuildFails(s: nat, commit: string) {
      exists k :: 0 <= k < maxStatusChecks && BuildFailsAt(s, commit, k)
    }

    predicate StaysPending(s: nat, commit: string) {
      forall j :: 0 <= j < maxStatusChecks ==> Pending(s, commit, j) && (j < maxStatusChecks - 1 ==> Waits(s, j))
    }

    predicate GetsBuilt(s: nat, commit: string) {
      exists k :: 0 <= k < maxStatusChecks && BuiltAt(s, commit, k)
    }

    ghost function FirstBuilt(s: nat, commit: string): (k: nat)
      requires GetsBuilt(s, commit)
      ensures k < maxStatusChecks && BuiltAt(s, commit, k)
    {
      var k :| 0 <= k < maxStatusChecks && BuiltAt(s, commit, k);
      k
    }

    /** The first check that does not find the build pending decides. */
    lemma FirstReportDecides(s: nat, commit: string, k: nat)
      requires k < maxStatusChecks && PendingUntil(s, commit, k) && !Pending(s, commit, k)
      ensures BuiltAt(s, commit, k) ==> GetsBuilt(s, commit) && FirstBuilt(s, commit) == k
      ensures GetsBuilt(s, commit) <==> BuiltAt(s, commit, k)
      ensures BuildFails(s, commit) <==> BuildFailsAt(s, commit, k)
      ensures !StaysPending(s, commit)
    {
      forall j | 0 <= j < maxStatusChecks && j != k ensures !BuiltAt(s, commit, j) && !BuildFailsAt(s, commit, j) {
        if j < k { assert Pending(s, commit, j); }
      }
    }

    lemma FailedWaitDecides(s: nat, commit: string, k: nat)
      requires k < maxStatusChecks - 1 && PendingUntil(s, commit, k) && Pending(s, commit, k) && !Waits(s, k)
      ensures !GetsBuilt(s, commit) && !BuildFails(s, commit) && !StaysPending(s, commit)
    {
      forall j | 0 <= j < maxStatusChecks ensures !BuiltAt(s, commit, j) && !BuildFailsAt(s, commit, j) {
        if j <= k { assert Pending(s, commit, j); }
      }
    }

    lemma PendingToTheEnd(s: nat, commit: string)
      requires StaysPending(s, commit)
      ensures !GetsBuilt(s, commit) && !BuildFails(s, commit)
    {
      forall j | 0 <= j < maxStatusChecks ensures !BuiltAt(s, commit, j) && !BuildFailsAt(s, commit, j) {
        assert Pending(s, commit, j);
      }
    }

    /** A deployment starts, its build is reported, and the third write succeeds. */
    ghost predicate DeploysAt(s: nat, commit: string) {
      Fine(s) && GetsBuilt(s + 1, commit) && Fine(s + 1 + 2 * FirstBuilt(s + 1, commit) + 2)
    }

    ghost function SiteAt(s: nat, commit: string): string
      requires GetsBuilt(s, commit)
    {
      env.answers(s + 2 * FirstBuilt(s, commit)).pagesUrl
    }

    /** From step d on, delivery and deployment succeed. */
    ghost predicate FinishesAt(d: nat, repository: Repository) {
      DeliversAt(d, repository) && DeploysAt(d + DeliverySteps(d), CommitAt(d))
    }

    /** The address in the first report of the finished build. */
    ghost function FinishedAddress(d: nat, repository: Repository): string
      requires FinishesAt(d, repository)
    {
      SiteAt(d + DeliverySteps(d) + 1, CommitAt(d))
    }

    lemma AddressIsReported(d: nat, repository: Repository)
      requires FinishesAt(d, repository)
      ensures exists k :: d <= k && ReportsBuilt(k, CommitAt(d), FinishedAddress(d, repository))
    {
      var s := d + DeliverySteps(d) + 1;
      var k := s + 2 * FirstBuilt(s, CommitAt(d));
      assert ReportsBuilt(k, CommitAt(d), FinishedAddress(d, repository)) && d <= k;
    }

    /** The step after the first write of the record. */
    ghost function DeliveryAt(s: nat, github: Option<Github>): nat
      requires ChoiceAt(s, github)
    {
      WriteAt(s, github) + 1
    }

    /** The replies from step s on let a whole publish succeed. */
    ghost predicate PublishesAt(s: nat, github: Option<Github>) {
      && ChoiceAt(s, github) && Fine(WriteAt(s, github))
      && FinishesAt(DeliveryAt(s, github), ChosenAt(s, github))
    }

    lemma CommitEventsKeep(t: Trace, s: nat)
      requires !Idle(t)
      ensures var after := t + CommitEvents(s);
              && Clean(after) == Clean(t) && Saved(after) == Saved(t) && Unsaved(after) == Unsaved(t) && !Idle(after)
              && Chosen(after) == Chosen(t)
    {
      if CommitEvents(s) == [] {
        assert t + CommitEvents(s) == t;
      } else {
        CommittedNext(t, env.answers(s + 2).text != "");
      }
    }

    // The steps.

    /** Connection, project type, git state, and the files that publishing needs. */
    method PrepareFiles() returns (r: Result<Prepared, Failure>)
      requires env.Valid()
      modifies env`step
      ensures env.Valid() && env.step >= old(env.step)
      ensures r.Ok? <==> FilesReady(old(env.step))
      ensures r.Ok? ==> r.value == PreparedAt(old(env.step)) && env.step == old(env.step) + FilesSteps(old(env.step))
    {
      var connection :- env.Call();
      if !connection.connected || connection.username == "" { return Err(NotConnected); }
      var project :- env.Call();
      if !project.supported { return Err(Unsupported(project.reason)); }
      var state :- env.Call();
      var workflow :- env.Call();
      if project.fromBranch {
        var jekyll :- env.Call();
      }
      return Ok(Prepared(state.branch, state.remote, workflow.managed));
    }

    method ScanFiles(remote: Remote) returns (r: Result<nat, Failure>)
      requires env.Valid() && !Idle(env.trace)
      modifies env`step, env`trace
      ensures env.Valid() && env.step == old(env.step) + 1
      ensures r.Ok? <==> Fine(old(env.step))
      ensures r.Ok? ==> r.value == env.answers(old(env.step)).issues
      ensures env.trace == if r.Ok? then old(env.trace) + [Scanned(r.value, remote)] else old(env.trace)
    {
      var scan :- env.Call();
      env.Note(Scanned(scan.issues, remote));
      return Ok(scan.issues);
    }

    /** Everything before a repository is chosen, up to the scan for secrets and the checks of the origin remote. */
    method Prepare(github: Option<Github>) returns (r: Result<Prepared, Failure>)
      requires env.Valid() && !Idle(env.trace) && Chosen(env.trace).None? && github == SavedGithub(env.trace)
      modifies env`step, env`trace
      ensures env.Valid() && !Idle(env.trace) && Chosen(env.trace).None? && Saved(env.trace) == Saved(old(env.trace))
      ensures old(env.trace) <= env.trace && env.step >= old(env.step) && Unsaved(env.trace) == Unsaved(old(env.trace))
      ensures r.Ok? <==> ReadyAt(old(env.step), github)
      ensures r.Ok? ==> r.value == PreparedAt(old(env.step)) && env.step == ChoosingAt(old(env.step))
      ensures r.Ok? ==> env.trace == old(env.trace) + [Scanned(0, r.value.remote)] && Agrees(r.value.remote, github)
      ensures r.Ok? ==> Clean(env.trace) && (r.value.remote.NoRemote? ==> NoOrigin(env.trace))
    {
      var state :- PrepareFiles();
      var issues :- ScanFiles(state.remote);
      ScannedNext(old(env.trace), issues, state.remote);
      ProblemMeans(issues, state.remote, github);
      assert Saved(env.trace) == Saved(old(env.trace)) && Chosen(env.trace).None? && !Idle(env.trace);
      var problem := Problem(issues, state.remote, github);
      if problem.Some? { return Err(problem.value); }
      return Ok(state);
    }

    /** Asks whether one name is free, and if so creates the repository. */
    method TryName(base: string, suffix: nat, ghost start: nat) returns (r: Result<Option<Repository>, Failure>)
      requires env.Valid() && Allowed(env.trace, Created(base, Repository("", "", "")))
      requires env.step == start + 2 * suffix
      modifies env`step, env`trace
      ensures env.Valid() && env.step >= old(env.step)
      ensures r.Ok? <==> Asked(start, suffix) && (!Taken(start, suffix) ==> Fine(start + 2 * suffix + 2))
      ensures r.Ok? && !Taken(start, suffix) ==>
                && r.value == Some(env.answers(start + 2 * suffix + 2).created) && env.step == old(env.step) + 3
                && env.trace == old(env.trace) + [Created(NameOf(base, suffix), r.value.value)]
      ensures r.Ok? && Taken(start, suffix) ==> r.value == None && env.step == old(env.step) + 2
      ensures !(r.Ok? && r.value.Some?) ==> env.trace == old(env.trace)
    {
      var connection :- env.Call();
      if connection.username == "" { return Err(ConnectionLost); }
      var existing :- env.Call();
      if existing.found.Some? { return Ok(None); }
      var creation :- env.Call();
      env.Note(Created(NameOf(base, suffix), creation.created));
      return Ok(Some(creation.created));
    }

    /** Asks for one name after another, and creates the first that is free. */
    method CreateUniqueRepository(base: string) returns (r: Result<Repository, Failure>)
      requires env.Valid() && Allowed(env.trace, Created(base, Repository("", "", "")))
      modifies env`step, env`trace
      ensures env.Valid() && env.step >= old(env.step)
      ensures r.Ok? <==> CanCreate(old(env.step))
      ensures r.Err? ==> env.trace == old(env.trace)
      ensures r.Ok? ==>
                var k := FreeName(old(env.step));
                && r.value == CreatedAt(old(env.step)) && env.step == old(env.step) + 2 * k + 3
                && env.trace == old(env.trace) + [Created(NameOf(base, k), r.value)]
    {
      ghost var start := env.step;
      for suffix := 0 to 50
        invariant env.Valid() && env.trace == old(env.trace) && env.step == start + 2 * suffix
        invariant TakenUntil(start, suffix)
      {
        var made := TryName(base, suffix, start);
        if made.Err? {
          NoFreeNameAt(start, suffix);
          return Err(made.error);
        }
        if made.value.Some? {
          FreeNameIs(start, suffix);
          return Ok(made.value.value);
        }
        TakenNext(start, suffix);
      }
      AllTaken(start);
      r := Err(NoFreeName);
    }

    method LookUp(owner: string, name: string) returns (r: Result<Repository, Failure>)
      requires env.Valid() && Allowed(env.trace, LookedUp(owner, name, None))
      modifies env`step, env`trace
      ensures env.Valid() && env.step == old(env.step) + 1 && !Idle(env.trace)
      ensures Clean(env.trace) == Clean(old(env.trace)) && Saved(env.trace) == Saved(old(env.trace))
      ensures Unsaved(env.trace) == Unsaved(old(env.trace))
      ensures r.Ok? <==> Fine(old(env.step)) && env.answers(old(env.step)).found.Some?
      ensures r.Ok? ==> env.answers(old(env.step)).found == Some(r.value)
      ensures Fine(old(env.step)) ==>
                env.trace == old(env.trace) + [LookedUp(owner, name, env.answers(old(env.step)).found)]
      ensures !Fine(old(env.step)) ==> env.trace == old(env.trace)
      ensures Chosen(env.trace) == if r.Ok? then Some(r.value) else None
    {
      var lookup :- env.Call();
      LookedUpNext(env.trace, owner, name, lookup.found);
      env.Note(LookedUp(owner, name, lookup.found));
      if lookup.found.None? { return Err(Unavailable); }
      return Ok(lookup.found.value);
    }

    method AskConsent() returns (r: Result<(), Failure>)
      requires env.Valid() && !Idle(env.trace)
      modifies env`step, env`trace
      ensures env.Valid() && env.step >= old(env.step)
      ensures r.Ok? <==> ConsentsAt(old(env.step))
      ensures r.Ok? ==> env.step == old(env.step) + 1
      ensures env.trace == if r.Ok? then old(env.trace) + [Consented] else old(env.trace)
    {
      if !confirms { return Err(Cancelled); }
      var reply :- env.Call();
      if !reply.consent { return Err(Cancelled); }
      env.Note(Consented);
      return Ok(());
    }

    /** A new repository, once the student has consented. */
    method CreateConsented(base: string) returns (r: Result<Repository, Failure>)
      requires env.Valid() && !Idle(env.trace) && Chosen(env.trace).None? && !Unsaved(env.trace)
      requires SavedGithub(env.trace).None? && Clean(env.trace) && NoOrigin(env.trace)
      modifies env`step, env`trace
      ensures env.Valid() && env.step >= old(env.step)
      ensures r.Ok? <==> ConsentsAt(old(env.step)) && CanCreate(old(env.step) + 1)
      ensures r.Err? ==> env.trace == old(env.trace) || env.trace == old(env.trace) + [Consented]
      ensures r.Ok? ==>
                var k := FreeName(old(env.step) + 1);
                && r.value == CreatedAt(old(env.step) + 1) && env.step == old(env.step) + 2 * k + 4
                && env.trace == old(env.trace) + [Consented] + [Created(NameOf(base, k), r.value)]
    {
      var consent := AskConsent();
      if consent.Err? { return Err(consent.error); }
      ConsentedNext(old(env.trace));
      r := CreateUniqueRepository(base);
    }

    /** The same, with the time of the consent. */
    method CreateWithConsent(base: string) returns (r: Result<(Repository, Option<int>), Failure>)
      requires env.Valid() && !Idle(env.trace) && Chosen(env.trace).None? && !Unsaved(env.trace)
      requires SavedGithub(env.trace).None? && Clean(env.trace) && NoOrigin(env.trace)
      modifies env`step, env`trace
      ensures env.Valid() && !Idle(env.trace) && Clean(env.trace) && Saved(env.trace) == Saved(old(env.trace))
      ensures old(env.trace) <= env.trace && env.step >= old(env.step)
      ensures r.Ok? <==> ConsentsAt(old(env.step)) && CanCreate(old(env.step) + 1)
      ensures r.Err? ==> !Unsaved(env.trace) && Chosen(env.trace).None?
      ensures r.Ok? ==> Unsaved(env.trace) && Chosen(env.trace) == Some(r.value.0)
      ensures r.Ok? ==>
                var k := FreeName(old(env.step) + 1);
                && r.value == (CreatedAt(old(env.step) + 1), Some(env.answers(old(env.step) + 2 * k + 4).now))
                && env.trace == old(env.trace) + [Consented] + [Created(NameOf(base, k), r.value.0)]
                && env.step == old(env.step) + 2 * k + 5
    {
      ConsentedNext(env.trace);
      var made := CreateConsented(base);
      if made.Err? { return Err(made.error); }
      CreatedNext(old(env.trace) + [Consented], NameOf(base, FreeName(old(env.step) + 1)), made.value);
      var clock := env.Ask();
      r := Ok((made.value, Some(clock.now)));
    }

    /** The repository of origin, else the saved one, else a new one, for which consent is needed. */
    method ChooseRepository(github: Option<Github>, remote: Remote, base: string)
      returns (r: Result<(Repository, Option<int>), Failure>)
      requires env.Valid() && !Idle(env.trace) && Chosen(env.trace).None? && !Unsaved(env.trace)
      requires github == SavedGithub(env.trace) && Agrees(remote, github)
      requires Clean(env.trace) && (remote.NoRemote? ==> NoOrigin(env.trace))
      modifies env`step, env`trace
      ensures env.Valid() && !Idle(env.trace) && Clean(env.trace) && Saved(env.trace) == Saved(old(env.trace))
      ensures old(env.trace) <= env.trace && env.step >= old(env.step)
      ensures r.Ok? <==> CanChoose(old(env.step), github, remote)
      ensures Chosen(env.trace) == if r.Ok? then Some(r.value.0) else None
      ensures Unsaved(env.trace) <==> r.Ok? && Existing(github, remote).None?
      ensures r.Ok? ==>
                && r.value.0 == ChosenFrom(old(env.step), github, remote)
                && env.step == old(env.step) + ChoosingSteps(old(env.step), github, remote)
                && env.trace == old(env.trace) + ChoosingEvents(old(env.step), github, remote, base)
      ensures r.Ok? ==>
                r.value.1 == if Existing(github, remote).Some? then (if github.Some? then github.value.publicConsentAt
                                                                     else None)
                             else Some(env.answers(env.step - 1).now)
    {
      if Existing(github, remote).Some? {
        var known := Existing(github, remote).value;
        var found := LookUp(known.0, known.1);
        if found.Err? { return Err(found.error); }
        return Ok((found.value, if github.Some? then github.value.publicConsentAt else None));
      }
      r := CreateWithConsent(base);
      if r.Ok? {
        AppendTwo(old(env.trace), [Consented], [Created(NameOf(base, FreeName(old(env.step) + 1)), r.value.0)]);
        assert env.trace == old(env.trace) + ChoosingEvents(old(env.step), github, remote, base);
      }
    }

    /** Commits what has changed, or a first commit. */
    method CommitFiles() returns (r: Result<(), Failure>)
      requires env.Valid() && !Idle(env.trace)
      modifies env`step, env`trace
      ensures env.Valid() && env.step >= old(env.step)
      ensures r.Ok? <==> Commits(old(env.step))
      ensures r.Ok? ==> env.step == old(env.step) + CommitSteps(old(env.step)) - 1
      ensures env.trace == old(env.trace) + CommitEvents(old(env.step))
    {
      var add :- env.Call();
      var changes :- env.Call();
      var head :- env.Call();
      if changes.text != "" || head.text == "" {
        var commit :- env.Call();
        env.Note(Committed(head.text != ""));
      }
      return Ok(());
    }

    /** Commits what has changed, or a first commit; returns the short name of the current commit. */
    method CommitChanges() returns (r: Result<string, Failure>)
      requires env.Valid() && !Idle(env.trace)
      modifies env`step, env`trace
      ensures env.Valid() && env.step >= old(env.step)
      ensures r.Ok? <==> CommitsAt(old(env.step))
      ensures r.Ok? ==> r.value == CommitAt(old(env.step)) && env.step == old(env.step) + CommitSteps(old(env.step))
      ensures env.trace == old(env.trace) + CommitEvents(old(env.step))
    {
      var committed :- CommitFiles();
      var short :- env.Call();
      return Ok(short.text);
    }

    /** Origin is set if there is none; another repository there is an error. */
    method EnsureOrigin(repository: Repository) returns (r: Result<(), Failure>)
      requires env.Valid() && !Idle(env.trace)
      modifies env`step, env`trace
      ensures env.Valid() && env.step >= old(env.step)
      ensures r.Ok? <==> OriginAt(old(env.step), repository)
      ensures r.Ok? ==> env.step == old(env.step) + OriginSteps(old(env.step))
      ensures r.Ok? ==> env.trace == old(env.trace) + [OriginIs(repository.owner, repository.name)]
      ensures r.Err? ==> env.trace == old(env.trace)
      ensures Saved(env.trace) == Saved(old(env.trace)) && Chosen(env.trace) == Chosen(old(env.trace))
    {
      var existing :- env.Call();
      if existing.remote.NoRemote? {
        var add :- env.Call();
      } else if existing.remote != GitHubRemote(repository.owner, repository.name) {
        return Err(OtherOrigin);
      }
      OriginIsNext(env.trace, repository.owner, repository.name);
      env.Note(OriginIs(repository.owner, repository.name));
      return Ok(());
    }

    method Push(repository: Repository) returns (r: Result<(), Failure>)
      requires env.Valid() && Allowed(env.trace, Pushed(repository.owner, repository.name))
      modifies env`step, env`trace
      ensures env.Valid() && env.step == old(env.step) + 1
      ensures r.Ok? <==> Fine(old(env.step))
      ensures env.trace == old(env.trace) + [Pushed(repository.owner, repository.name)]
      ensures Saved(env.trace) == Saved(old(env.trace)) && Chosen(env.trace) == Chosen(old(env.trace))
    {
      PushedNext(env.trace, repository.owner, repository.name);
      env.Note(Pushed(repository.owner, repository.name));
      var push :- env.Call();
      return Ok(());
    }

    /**
     Asks for the status of the site a limited number of times. The first report of the right build decides: finished,
     it gives the address; failed, it ends the wait.
     */
    method WaitForDeployment(commit: string) returns (r: Result<string, Failure>)
      requires env.Valid()
      modifies env`step
      ensures env.Valid() && old(env.step) <= env.step <= old(env.step) + 2 * maxStatusChecks
      ensures r.Ok? <==> GetsBuilt(old(env.step), commit)
      ensures r.Ok? ==>
                && r.value == SiteAt(old(env.step), commit)
                && env.step == old(env.step) + 2 * FirstBuilt(old(env.step), commit) + 1
      ensures r == Err(BuildFailed) <==> BuildFails(old(env.step), commit)
      ensures r == Err(TimedOut) <==> StaysPending(old(env.step), commit)
    {
      ghost var s := env.step;
      for attempt := 0 to maxStatusChecks
        invariant env.Valid()
        invariant env.step == s + 2 * attempt - if attempt == maxStatusChecks && attempt > 0 then 1 else 0
        invariant forall j :: 0 <= j < attempt ==> Pending(s, commit, j) && (j < maxStatusChecks - 1 ==> Waits(s, j))
      {
        assert PendingUntil(s, commit, attempt);
        var status := env.Call();
        if status.Err? {
          FirstReportDecides(s, commit, attempt);
          return Err(status.error);
        }
        var current := CurrentBuild(commit, status.value.pagesCommit);
        if current && status.value.pages.Built? && status.value.pagesUrl != "" {
          FirstReportDecides(s, commit, attempt);
          return Ok(status.value.pagesUrl);
        }
        if current && status.value.pages.Errored? {
          FirstReportDecides(s, commit, attempt);
          return Err(BuildFailed);
        }
        if attempt < maxStatusChecks - 1 {
          var wait := env.Call();
          if wait.Err? {
            FailedWaitDecides(s, commit, attempt);
            return Err(wait.error);
          }
        }
      }
      PendingToTheEnd(s, commit);
      return Err(TimedOut);
    }

    /** Scan and choice of a repository. */
    method Choose(github: Option<Github>, base: string) returns (r: Result<Choice, Failure>)
      requires env.Valid() && !Idle(env.trace) && Chosen(env.trace).None? && !Unsaved(env.trace)
      requires github == SavedGithub(env.trace)
      modifies env`step, env`trace
      ensures env.Valid() && !Idle(env.trace) && Saved(env.trace) == Saved(old(env.trace))
      ensures old(env.trace) <= env.trace && env.step >= old(env.step)
      ensures r.Ok? <==> ChoiceAt(old(env.step), github)
      ensures Chosen(env.trace) == if r.Ok? then Some(r.value.repository) else None
      ensures Unsaved(env.trace) <==> r.Ok? && Existing(github, RemoteAt(old(env.step))).None?
      ensures r.Ok? ==>
                && Clean(env.trace) && r.value.repository == ChosenAt(old(env.step), github)
                && env.step == WriteAt(old(env.step), github)
                && env.trace == old(env.trace) + ChoiceEvents(old(env.step), github, base)
    {
      var prepared :- Prepare(github);
      ghost var scanned := env.trace;
      var chosen :- ChooseRepository(github, prepared.remote, base);
      AppendTwo(old(env.trace), [Scanned(0, prepared.remote)],
          ChoosingEvents(ChoosingAt(old(env.step)), github, prepared.remote, base));
      r := Ok(Choice(chosen.0, chosen.1, prepared.branch, prepared.managed));
    }

    /** The choice of a repository and the first write of the record, as being prepared. */
    method OpenRecord(metadata: Metadata, base: string) returns (r: Result<Choice, Failure>, m: Metadata)
      requires env.Valid() && !Idle(env.trace) && Chosen(env.trace).None? && !Unsaved(env.trace)
      requires metadata == Saved(env.trace).GetOr(Metadata(None, None))
      modifies env
      ensures env.Valid() && old(env.trace) <= env.trace && env.CanFail(m) && env.step >= old(env.step)
      ensures History(m.deployment) == History(metadata.deployment)
      ensures m.deployment.None? ==> metadata.deployment.None? && Saved(env.trace) == Saved(old(env.trace))
      ensures r.Ok? <==> ChoiceAt(old(env.step), metadata.github) && Fine(WriteAt(old(env.step), metadata.github))
      ensures r.Ok? ==>
                && Clean(env.trace) && env.Holds(m) && NamesChosen(env.trace)
                && r.value.repository == ChosenAt(old(env.step), metadata.github)
                && Chosen(env.trace) == Some(r.value.repository)
                && env.step == DeliveryAt(old(env.step), metadata.github)
      ensures r.Err? ==> NotOpened(old(env.step), metadata.github, base, old(env.trace), env.trace, env.step)
      ensures ChoiceAt(old(env.step), metadata.github) ==> m.deployment.Some?
    {
      m := metadata;
      var choice := Choose(metadata.github, base);
      if choice.Err? {
        SavedIsWritable(metadata, env.trace, env.answers(env.step).now);
        return Err(choice.error), m;
      }
      var chosen := choice.value;
      WithRepositoryIsWritable(metadata, chosen.repository, chosen.branch, chosen.consentAt, env.trace,
          env.answers(env.step).now);
      m := WithRepository(metadata, chosen.repository, chosen.branch, chosen.consentAt);
      RecordedNext(env.trace, m);
      WriteFailedNext(env.trace);
      var kept := env.Keep(m);
      if kept.Err? { return Err(kept.error), m; }
      return choice, m;
    }

    /** From before to t no record was written: no repository was chosen, or the first write failed, at step - 1. */
    ghost predicate NotOpened(s: nat, github: Option<Github>, base: string, before: Trace, t: Trace, step: nat) {
      && Saved(t) == Saved(before)
      && if !ChoiceAt(s, github) then Chosen(t).None? && !Unsaved(t)
         else
           && step == WriteAt(s, github) + 1 && Chosen(t) == Some(ChosenAt(s, github))
           && (Unsaved(t) <==> Existing(github, RemoteAt(s)).None?)
           && t == before + ChoiceEvents(s, github, base) + [WriteFailed]
    }

    /** Origin and push, in that order. */
    method PushTo(repository: Repository) returns (r: Result<(), Failure>)
      requires env.Valid() && !Idle(env.trace) && Clean(env.trace) && !Unsaved(env.trace)
      requires Saved(env.trace).Some? && Names(SavedGithub(env.trace), repository)
      modifies env`step, env`trace
      ensures env.Valid() && !Idle(env.trace) && !Unsaved(env.trace) && Saved(env.trace) == Saved(old(env.trace))
      ensures old(env.trace) <= env.trace && env.step >= old(env.step) && Chosen(env.trace) == Chosen(old(env.trace))
      ensures r.Ok? <==> PushesAt(old(env.step), repository)
      ensures r.Ok? ==> env.step == old(env.step) + PushSteps(old(env.step))
      ensures r.Ok? ==> InCall(env.trace, Pushed(repository.owner, repository.name))
    {
      OriginIsNext(env.trace, repository.owner, repository.name);
      var origin :- EnsureOrigin(repository);
      PushedNext(env.trace, repository.owner, repository.name);
      InCallNext(env.trace, Pushed(repository.owner, repository.name), Pushed(repository.owner, repository.name));
      var push :- Push(repository);
      return Ok(());
    }

    /** Commit and push; the commit is known even if the push fails. */
    method CommitAndPush(m: Metadata, repository: Repository) returns (r: Result<(), Failure>, commit: Option<string>)
      requires env.Valid() && env.CanFail(m) && env.Holds(m) && Clean(env.trace) && Names(m.github, repository)
      modifies env`step, env`trace
      ensures env.Valid() && old(env.trace) <= env.trace && env.CanFail(m) && env.Holds(m) && env.step >= old(env.step)
      ensures Chosen(env.trace) == Chosen(old(env.trace))
      ensures r.Ok? <==>
              CommitsAt(old(env.step)) && PushesAt(old(env.step) + CommitSteps(old(env.step)), repository)
      ensures r.Ok? ==>
                && commit == Some(CommitAt(old(env.step)))
                && env.step == old(env.step) + DeliverySteps(old(env.step)) - 1
                && InCall(env.trace, Pushed(repository.owner, repository.name))
    {
      commit := None;
      CommitEventsKeep(env.trace, env.step);
      var committed := CommitChanges();
      assert NotLater(env.answers, old(env.step), env.step);
      if committed.Err? { return Err(committed.error), commit; }
      commit := Some(committed.value);
      r := PushTo(repository);
      assert NotLater(env.answers, old(env.step), env.step);
    }

    /**
     Commit, push, and the second write of the record, as being deployed. The commit is known even if a later step
     fails.
     */
    method Deliver(metadata: Metadata, choice: Choice)
      returns (r: Result<string, Failure>, m: Metadata, commit: Option<string>)
      requires env.Valid() && env.CanFail(metadata) && env.Holds(metadata) && Clean(env.trace) && NamesChosen(env.trace)
      requires Chosen(env.trace) == Some(choice.repository)
      modifies env
      ensures env.Valid() && old(env.trace) <= env.trace && env.CanFail(m) && env.step >= old(env.step)
      ensures NamesChosen(env.trace) && Chosen(env.trace) == Some(choice.repository)
      ensures m.deployment.Some? && History(m.deployment) == History(metadata.deployment)
      ensures r.Ok? <==> DeliversAt(old(env.step), choice.repository)
      ensures r.Ok? ==>
                && r.value == CommitAt(old(env.step)) && commit == Some(r.value)
                && env.step == old(env.step) + DeliverySteps(old(env.step))
      ensures r.Ok? ==> env.Holds(m) && m.deployment.value.status == Deploying
      ensures r.Ok? ==>
                Names(m.github, choice.repository)
                && InCall(env.trace, Pushed(choice.repository.owner, choice.repository.name))
    {
      m := metadata;
      var pushed;
      pushed, commit := CommitAndPush(m, choice.repository);
      if pushed.Err? { return Err(pushed.error), m, commit; }
      m := AsDeploying(m, choice.managed);
      InCallNext(env.trace, Recorded(m), Pushed(choice.repository.owner, choice.repository.name));
      var kept := env.Keep(m);
      if kept.Err? { return Err(kept.error), m, commit; }
      r := Ok(commit.value);
    }

    /** Asks the provider to deploy, or to update an earlier deployment. */
    method StartDeployment(updating: bool, repository: Repository) returns (r: Result<(), Failure>)
      requires env.Valid() && Allowed(env.trace, Deployed(updating))
      modifies env`step, env`trace
      ensures env.Valid() && !Idle(env.trace) && !Unsaved(env.trace) && Saved(env.trace) == Saved(old(env.trace))
      ensures env.trace == old(env.trace) + [Deployed(updating)] && env.step == old(env.step) + 1
      ensures r.Ok? <==> Fine(old(env.step))
      ensures Chosen(env.trace) == Chosen(old(env.trace))
      ensures InCall(env.trace, Deployed(updating))
      ensures InCall(old(env.trace), Pushed(repository.owner, repository.name)) ==>
                InCall(env.trace, Pushed(repository.owner, repository.name))
    {
      DeployedNext(env.trace, updating);
      InCallNext(env.trace, Deployed(updating), Deployed(updating));
      InCallNext(env.trace, Deployed(updating), Pushed(repository.owner, repository.name));
      env.Note(Deployed(updating));
      var started :- env.Call();
      return Ok(());
    }

    /** Asks for the deployment and waits until it is built. */
    method AwaitSite(metadata: Metadata, commit: string, updating: bool, repository: Repository)
      returns (r: Result<string, Failure>)
      requires env.Valid() && env.CanFail(metadata) && env.Holds(metadata)
                 && metadata.deployment.value.status == Deploying
      modifies env`step, env`trace
      ensures env.Valid() && env.CanFail(metadata) && env.Holds(metadata) && env.step >= old(env.step)
      ensures env.trace == old(env.trace) + [Deployed(updating)] && Chosen(env.trace) == Chosen(old(env.trace))
      ensures r.Ok? <==> Fine(old(env.step)) && GetsBuilt(old(env.step) + 1, commit)
      ensures r.Ok? ==>
                && r.value == SiteAt(old(env.step) + 1, commit)
                && env.step == old(env.step) + 1 + 2 * FirstBuilt(old(env.step) + 1, commit) + 1
    {
      var started := StartDeployment(updating, repository);
      assert NotLater(env.answers, old(env.step), env.step);
      if started.Err? { return Err(started.error); }
      r := WaitForDeployment(commit);
      assert NotLater(env.answers, old(env.step), env.step);
    }

    /** Deployment, the wait for it, and the third write of the record, as published. */
    method Deploy(metadata: Metadata, commit: string, updating: bool, repository: Repository)
      returns (r: Result<string, Failure>, m: Metadata)
      requires env.Valid() && env.CanFail(metadata) && env.Holds(metadata) && NamesChosen(env.trace)
                 && metadata.deployment.value.status == Deploying
      requires InCall(env.trace, Pushed(repository.owner, repository.name))
      modifies env
      ensures env.Valid() && old(env.trace) <= env.trace && env.CanFail(m) && m.deployment.Some?
      ensures NamesChosen(env.trace) && Chosen(env.trace) == Chosen(old(env.trace))
      ensures Follows(History(m.deployment), History(metadata.deployment))
      ensures r.Ok? <==> DeploysAt(old(env.step), commit)
      ensures r.Ok? ==> r.value == SiteAt(old(env.step) + 1, commit)
      ensures r.Ok? ==> env.Holds(m) && (exists now :: m == AsPublished(metadata, r.value, commit, now))
      ensures r.Ok? ==>
                InCall(env.trace, Pushed(repository.owner, repository.name))
                && InCall(env.trace, Deployed(updating))
    {
      m := metadata;
      InCallNext(env.trace, Deployed(updating), Deployed(updating));
      InCallNext(env.trace, Deployed(updating), Pushed(repository.owner, repository.name));
      r := AwaitSite(metadata, commit, updating, repository);
      if r.Err? { return; }
      r, m := RecordPublished(metadata, r.value, commit, updating, repository);
    }

    /** The third write of the record. */
    method RecordPublished(metadata: Metadata, url: string, commit: string, updating: bool, repository: Repository)
      returns (r: Result<string, Failure>, m: Metadata)
      requires env.Valid() && env.CanFail(metadata) && env.Holds(metadata) && NamesChosen(env.trace)
      requires InCall(env.trace, Pushed(repository.owner, repository.name)) && InCall(env.trace, Deployed(updating))
      modifies env
      ensures env.Valid() && old(env.trace) <= env.trace && env.CanFail(m) && m.deployment.Some?
      ensures NamesChosen(env.trace) && Chosen(env.trace) == Chosen(old(env.trace))
      ensures Follows(History(m.deployment), History(metadata.deployment))
      ensures r.Ok? <==> Fine(old(env.step) + 1)
      ensures r.Ok? ==> r.value == url && env.Holds(m) && (exists now :: m == AsPublished(metadata, url, commit, now))
      ensures r.Ok? ==>
                InCall(env.trace, Pushed(repository.owner, repository.name))
                && InCall(env.trace, Deployed(updating))
    {
      var clock := env.Ask();
      PublishedIsWritable(metadata, env.trace, url, commit, clock.now);
      m := AsPublished(metadata, url, commit, clock.now);
      InCallNext(env.trace, Recorded(m), Pushed(repository.owner, repository.name));
      InCallNext(env.trace, Recorded(m), Deployed(updating));
      var kept := env.Keep(m);
      r := if kept.Err? then Err(kept.error) else Ok(url);
    }

    /**
     The record says published, with the address in the first report of the finished build, which is of the commit
     pushed, and a new entry in front of the history.
     */
    ghost predicate Published(s: nat, before: Metadata, t: Trace, url: string) {
      && PublishesAt(s, before.github) && Saved(t).Some? && WasDelivered(t, Saved(t).value, before.deployment.Some?)
      && var d := DeliveryAt(s, before.github);
      && url == FinishedAddress(d, ChosenAt(s, before.github))
      && IsPublished(Saved(t).value, url, CommitAt(d), History(before.deployment))
      && exists k :: s <= k && ReportsBuilt(k, CommitAt(d), url)
    }

    /**
     A publish up to success or the first failure, with the local copy of the record and the commit as they are then.
     */
    method Attempt(metadata: Metadata, base: string)
      returns (r: Result<string, Failure>, m: Metadata, commit: Option<string>)
      requires env.Valid() && !Idle(env.trace) && Chosen(env.trace).None? && !Unsaved(env.trace)
      requires metadata == Saved(env.trace).GetOr(Metadata(None, None))
      modifies env
      ensures env.Valid() && old(env.trace) <= env.trace && env.CanFail(m)
      ensures r.Err? ==> Follows(History(m.deployment), History(metadata.deployment))
      ensures m.deployment.None? ==> metadata.deployment.None? && Saved(env.trace) == Saved(old(env.trace))
      ensures r.Ok? <==> PublishesAt(old(env.step), metadata.github)
      ensures r.Ok? ==> Published(old(env.step), metadata, env.trace, r.value)
      ensures Attempted(old(env.step), metadata.github, base, old(env.trace), env.trace, env.step)
      ensures ChoiceAt(old(env.step), metadata.github) ==> m.deployment.Some?
    {
      commit := None;
      var choice;
      choice, m := OpenRecord(metadata, base);
      if choice.Err? { return Err(choice.error), m, commit; }
      ghost var d := env.step;
      r, m, commit := DeliverAndDeploy(m, choice.value, metadata.deployment.Some?);
      if r.Ok? { AddressIsReported(d, choice.value.repository); }
    }

    /** Everything after the first write of the record. */
    method DeliverAndDeploy(metadata: Metadata, choice: Choice, updating: bool)
      returns (r: Result<string, Failure>, m: Metadata, commit: Option<string>)
      requires env.Valid() && env.CanFail(metadata) && env.Holds(metadata) && Clean(env.trace) && NamesChosen(env.trace)
      requires Chosen(env.trace) == Some(choice.repository)
      modifies env
      ensures env.Valid() && old(env.trace) <= env.trace && env.CanFail(m) && m.deployment.Some?
      ensures NamesChosen(env.trace) && Chosen(env.trace) == Some(choice.repository)
      ensures r.Err? ==> Follows(History(m.deployment), History(metadata.deployment))
      ensures r.Ok? <==> FinishesAt(old(env.step), choice.repository)
      ensures r.Ok? ==>
                && env.Holds(m) && commit == Some(CommitAt(old(env.step)))
                && r.value == FinishedAddress(old(env.step), choice.repository)
                && IsPublished(m, r.value, commit.value, History(metadata.deployment))
      ensures r.Ok? ==> WasDelivered(env.trace, m, updating)
    {
      var delivered;
      delivered, m, commit := Deliver(metadata, choice);
      if delivered.Err? { return Err(delivered.error), m, commit; }
      r, m := Deploy(m, delivered.value, updating, choice.repository);
    }

    ghost predicate Attempted(s: nat, github: Option<Github>, base: string, before: Trace, t: Trace, step: nat) {
      if ChoiceAt(s, github) && Fine(WriteAt(s, github))
      then NamesChosen(t) && Chosen(t) == Some(ChosenAt(s, github))
      else NotOpened(s, github, base, before, t, step)
    }

    /** The failure of the call, at step, is on record. */
    ghost predicate FailureWritten(t: Trace, after: Trace, step: nat) {
      if Fine(step + 1)
      then !Unsaved(after)
           && if Chosen(t).Some? then Names(SavedGithub(after), Chosen(t).value)
              else SavedGithub(after) == SavedGithub(t)
      else after == t + [WriteFailed] && Saved(after) == Saved(t) && Unsaved(after) == Unsaved(t)
    }

    lemma FailureKeepsNames(s: nat, github: Option<Github>, base: string, before: Trace, t: Trace, after: Trace,
                            step: nat)
      requires Attempted(s, github, base, before, t, step) && SavedGithub(before) == github
      requires FailureWritten(t, after, step)
      ensures RecordedAsChosen(s, github, after)
      ensures LosesAt(s, github) ==> after == before + ChoiceEvents(s, github, base) + [WriteFailed] + [WriteFailed]
    {
    }

    /** What a call leaves on record: the chosen repository if one of its writes succeeds, else what was there. */
    ghost predicate RecordedAsChosen(s: nat, github: Option<Github>, t: Trace) {
      && (Unsaved(t) <==> LosesAt(s, github))
      && if ChoiceAt(s, github) && KeptAt(s, github) then Names(SavedGithub(t), ChosenAt(s, github))
         else SavedGithub(t) == github
    }

    /** The lookup of the recorded repository is answered with one of another name, which gets on record. */
    ghost predicate RenamesAt(s: nat, github: Option<Github>) {
      ChoiceAt(s, github) && KeptAt(s, github) && !Names(github, env.answers(ChoosingAt(s)).found.GetOr(NOWHERE))
    }

    /** Where a repository is on record, the record names another one after the call exactly on such replies. */
    lemma RenamesExactly(s: nat, github: Option<Github>, t: Trace)
      requires RecordedAsChosen(s, github, t) && github.Some?
      ensures SavedGithub(t).Some? && (!SameName(SavedGithub(t), github) <==> RenamesAt(s, github))
    {
    }

    /** What a call that started at step s has done when it ends: before is the record at its start, t the trace. */
    ghost predicate Outcome(s: nat, before: Option<Metadata>, t: Trace, r: Result<string, Failure>) {
      var metadata := before.GetOr(Metadata(None, None));
      && RecordedAsChosen(s, metadata.github, t)
      && (r.Ok? <==> PublishesAt(s, metadata.github))
      && (r.Ok? ==> Published(s, metadata, t, r.value))
      && (r.Err? ==> FailureShown(before, t, wording(r.error)))
    }

    /** An attempt, and the record of its failure. */
    method Run(metadata: Metadata, base: string) returns (r: Result<string, Failure>)
      requires env.Valid() && !Idle(env.trace) && Chosen(env.trace).None? && !Unsaved(env.trace)
      requires metadata == Saved(env.trace).GetOr(Metadata(None, None))
      modifies env
      ensures env.Valid() && old(env.trace) <= env.trace && Allowed(env.trace, Ended(true))
      ensures Outcome(old(env.step), Saved(old(env.trace)), env.trace, r)
      ensures ChoiceAt(old(env.step), metadata.github) && !Fine(WriteAt(old(env.step), metadata.github)) ==>
                env.step == WriteAt(old(env.step), metadata.github) + 3
      ensures LosesAt(old(env.step), metadata.github) ==>
                env.trace == old(env.trace) + ChoiceEvents(old(env.step), metadata.github, base) + [WriteFailed]
                    + [WriteFailed]
    {
      var m, commit;
      r, m, commit := Attempt(metadata, base);
      ghost var t, step := env.trace, env.step;
      if r.Err? && m.deployment.Some? {
        RecordFailure(m, commit, wording(r.error));
        PrefixTransitive(old(env.trace), t, env.trace);
        FailureKeepsNames(old(env.step), metadata.github, base, old(env.trace), t, env.trace, step);
        assert FailureShown(Saved(old(env.trace)), env.trace, wording(r.error));
      }
    }

    /**
     Publishes a project. It succeeds exactly on the replies that let every step succeed. Afterwards the record says
     published, with the address of the first report of a finished build of the pushed commit and a new entry in
     front of the history; or it says failed with the error; or its last write failed. It names the repository chosen
     in the call if one of the writes that follow the choice succeeds, and else what it named before.
     */
    method Publish(base: string) returns (r: Result<string, Failure>)
      requires env.Valid() && Idle(env.trace)
      modifies env
      ensures env.Valid() && Idle(env.trace) && old(env.trace) <= env.trace
      ensures env.trace != [] && env.stored == Saved(env.trace[..|env.trace| - 1])
      ensures Outcome(old(env.step), old(env.stored), env.trace[..|env.trace| - 1], r)
      ensures ChoiceAt(old(env.step), SavedGithub(old(env.trace)))
              && !Fine(WriteAt(old(env.step), SavedGithub(old(env.trace)))) ==>
                env.step == WriteAt(old(env.step), SavedGithub(old(env.trace))) + 3
      ensures LosesAt(old(env.step), SavedGithub(old(env.trace))) ==>
                env.trace == old(env.trace)
                    + LostCall(ChoiceEvents(old(env.step), SavedGithub(old(env.trace)), base))
    {
      var metadata := env.stored.GetOr(Metadata(None, None));
      BegunNext(env.trace);
      env.Note(Began);
      ghost var begun := env.trace;
      r := Run(metadata, base);
      ghost var t := env.trace;
      PrefixTransitive(old(env.trace), begun, t);
      EndedNext(t, true);
      if LosesAt(old(env.step), metadata.github) {
        LostCallIs(old(env.trace), ChoiceEvents(old(env.step), metadata.github, base));
      }
      env.Note(Ended(true));
      assert env.trace[..|env.trace| - 1] == t;
    }

    /** The failure is written to the record; if that fails too, the error of the publish is still the one reported. */
    method RecordFailure(metadata: Metadata, commit: Option<string>, error: string)
      requires env.Valid() && env.CanFail(metadata) && metadata.deployment.Some?
      modifies env
      ensures env.Valid() && old(env.trace) <= env.trace && Allowed(env.trace, Ended(true))
      ensures FailureRecorded(env.trace, error, History(metadata.deployment))
      ensures env.step == old(env.step) + 2
      ensures FailureWritten(old(env.trace), env.trace, old(env.step))
    {
      var clock := env.Ask();
      FailedIsWritable(metadata, env.trace, commit, clock.now, error);
      var m := AsFailed(metadata, commit, clock.now, error);
      RecordedNext(env.trace, m);
      WriteFailedNext(env.trace);
      var kept := env.Write(m);
    }

    predicate HasSite(m: Option<Metadata>) {
      m.Some? && m.value.github.Some? && m.value.deployment.Some?
    }

    /** Takes the site down; the repository stays recorded. */
    method RemoveSite() returns (r: Result<(), Failure>)
      requires env.Valid() && Idle(env.trace)
      modifies env
      ensures env.Valid() && Idle(env.trace) && old(env.trace) <= env.trace
      ensures r.Ok? <==>
              && HasSite(old(env.stored)) && Fine(old(env.step)) && env.answers(old(env.step)).connected
              && Fine(old(env.step) + 1) && Fine(old(env.step) + 2)
      ensures r.Ok? ==> env.stored == Some(old(env.stored).value.(deployment := None))
      ensures r.Err? ==> env.stored == old(env.stored)
    {
      BegunNext(env.trace);
      env.Note(Began);
      r := Remove();
      EndedNext(env.trace, false);
      env.Note(Ended(false));
    }

    method Remove() returns (r: Result<(), Failure>)
      requires env.Valid() && !Idle(env.trace) && !Unsaved(env.trace) && Chosen(env.trace).None?
      modifies env
      ensures env.Valid() && !Idle(env.trace) && !Unsaved(env.trace) && old(env.trace) <= env.trace
      ensures r.Ok? <==>
              && HasSite(old(env.stored)) && Fine(old(env.step)) && env.answers(old(env.step)).connected
              && Fine(old(env.step) + 1) && Fine(old(env.step) + 2)
      ensures r.Ok? ==> env.stored == Some(old(env.stored).value.(deployment := None))
      ensures r.Err? ==> env.stored == old(env.stored)
    {
      if !HasSite(env.stored) { return Err(NoSite); }
      var metadata := env.stored.value;
      var connection :- env.Call();
      if !connection.connected { return Err(NotConnected); }
      RemovedNext(env.trace, metadata.github.value.owner, metadata.github.value.repo);
      env.Note(Removed(metadata.github.value.owner, metadata.github.value.repo));
      var removal :- env.Call();
      RecordedNext(env.trace, metadata.(deployment := None));
      WriteFailedNext(env.trace);
      var kept :- env.Write(metadata.(deployment := None));
      return Ok(());
    }
  }

  ghost predicate IsPublished(m: Metadata, url: string, commit: string, history: seq<Entry>) {
    && m.github.Some? && m.deployment.Some?
    && m.deployment.value.status == Published && m.deployment.value.url == Some(url)
        && m.deployment.value.lastError == None
    && exists now :: m.deployment.value.lastPublishedAt == Some(now)
         && m.deployment.value.history == Take([Entry(true, Some(commit), now, None)] + history, MAX_HISTORY)
  }

  /** In this call the recorded repository was pushed to, and the provider asked to deploy or update. */
  predicate WasDelivered(t: Trace, m: Metadata, updating: bool) {
    m.github.Some? && InCall(t, Pushed(m.github.value.owner, m.github.value.repo)) && InCall(t, Deployed(updating))
  }

  /** The history as before, or with the entry of a success in front that could not be recorded. */
  ghost predicate Follows(history: seq<Entry>, before: seq<Entry>) {
    history == before || exists e: Entry :: e.published && history == Take([e] + before, MAX_HISTORY)
  }

  /** The deployment shows this error, with an entry for it in front of the history. */
  ghost predicate IsFailed(d: Deployment, error: string, history: seq<Entry>) {
    && d.status == Failed && d.lastError == Some(Take(error, 1000))
    && exists e: Entry :: !e.published && e.message == Some(Take(error, 500))
        && d.history == Take([e] + history, MAX_HISTORY)
  }

  /** The record shows a failure with this error in front of the history, or the last write failed. */
  ghost predicate FailureRecorded(t: Trace, error: string, history: seq<Entry>) {
    || (SavedDeployment(t).Some? && IsFailed(SavedDeployment(t).value, error, history))
    || (t != [] && t[|t| - 1].WriteFailed?)
  }

  /** Where there is no deployment to record a failure for, the record is as before. */
  ghost predicate FailureShown(before: Option<Metadata>, t: Trace, error: string) {
    || (exists history :: Follows(history, History(DeploymentOf(before))) && FailureRecorded(t, error, history))
    || (SavedDeployment(t).None? && Saved(t) == before)
  }

  function DeploymentOf(m: Option<Metadata>): Option<Deployment> {
    if m.Some? then m.value.deployment else None
  }

  /** A call that creates a repository and then fails to write its record, twice. */
  function LostCall(choice: Trace): Trace {
    [Began] + choice + [WriteFailed, WriteFailed, Ended(true)]
  }

  lemma LostCallIs(t: Trace, choice: Trace)
    ensures t + [Began] + choice + [WriteFailed] + [WriteFailed] + [Ended(true)] == t + LostCall(choice)
  {
  }
}
