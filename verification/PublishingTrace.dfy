/**
 What may happen while a project is published, over all runs: the effects on GitHub and on the saved record,
 in order, and which sequences of them are acceptable (packages/publishing/src/publishing-service.ts).
 */
module PublishingTrace {
  import opened Common

  datatype Repository = Repository(owner: string, name: string, url: string)

  /** The origin remote: none, a GitHub repository, or something else. */
  datatype Remote = NoRemote | GitHubRemote(owner: string, name: string) | OtherRemote

  datatype Status = Preparing | Building | Deploying | Published | Failed

  datatype Entry = Entry(published: bool, commit: Option<string>, at: int, message: Option<string>)

  datatype Deployment = Deployment(
    status: Status, url: Option<string>, repositoryUrl: string, branch: string, managedWorkflow: Option<bool>,
    lastPublishedAt: Option<int>, lastError: Option<string>, history: seq<Entry>)

  datatype Github = Github(owner: string, repo: string, branch: string, repositoryUrl: string,
      publicConsentAt: Option<int>)

  datatype Metadata = Metadata(github: Option<Github>, deployment: Option<Deployment>)

  const MAX_HISTORY := 20

  /**
   Effects, and the requests that matter, in order. Began and Ended delimit the calls of publish and removeSite;
   Scanned carries the number of issues and the origin read before the scan; LookedUp is a repository asked for and
   the answer; Created is a repository that was really created, for the name asked for; Committed says whether there
   was a commit before; OriginIs says which repository origin was found or made to name; Pushed, Deployed and Removed
   are requests, made to git or to the hosting provider.
   */
  datatype Event =
    | Began
    | Scanned(issues: nat, remote: Remote)
    | Consented
    | LookedUp(owner: string, name: string, found: Option<Repository>)
    | Created(asked: string, repository: Repository)
    | Recorded(metadata: Metadata)
    | WriteFailed
    | Committed(update: bool)
    | OriginIs(owner: string, name: string)
    | Pushed(owner: string, name: string)
    | Deployed(updating: bool)
    | Removed(owner: string, name: string)
    | Ended(publishing: bool)

  type Trace = seq<Event>

  // ----- What a trace has established -----

  /** The record on disk. */
  function Saved(t: Trace): Option<Metadata> {
    if t == [] then None
    else if t[|t| - 1].Recorded? then Some(t[|t| - 1].metadata)
    else Saved(t[..|t| - 1])
  }

  function SavedGithub(t: Trace): Option<Github> {
    if Saved(t).Some? then Saved(t).value.github else None
  }

  function SavedDeployment(t: Trace): Option<Deployment> {
    if Saved(t).Some? then Saved(t).value.deployment else None
  }

  /** Consent was given in this call. */
  predicate Consent(t: Trace) {
    t != [] && (t[|t| - 1].Consented? || (!t[|t| - 1].Began? && Consent(t[..|t| - 1])))
  }

  predicate Agrees(remote: Remote, github: Option<Github>) {
    !remote.OtherRemote? && (remote.GitHubRemote? && github.Some? ==>
        remote.owner == github.value.owner && remote.name == github.value.repo)
  }

  /** The scan of this call found nothing, and origin agreed with the saved repository. */
  predicate Clean(t: Trace) {
    t != [] &&
    match t[|t| - 1]
    case Scanned(issues, remote) => issues == 0 && Agrees(remote, SavedGithub(t[..|t| - 1]))
    case Began => false
    case _ => Clean(t[..|t| - 1])
  }

  /** At the scan of this call there was no origin remote. */
  predicate NoOrigin(t: Trace) {
    t != [] &&
    match t[|t| - 1]
    case Scanned(_, remote) => remote.NoRemote?
    case Began => false
    case _ => NoOrigin(t[..|t| - 1])
  }

  /** In this call origin was last seen to name this repository. */
  predicate OriginNames(t: Trace, owner: string, name: string) {
    t != [] &&
    match t[|t| - 1]
    case OriginIs(o, n) => o == owner && n == name
    case Began => false
    case _ => OriginNames(t[..|t| - 1], owner, name)
  }

  /** This call created a repository that no record names yet. */
  predicate Unsaved(t: Trace) {
    t != [] && (t[|t| - 1].Created? || (!t[|t| - 1].Recorded? && !t[|t| - 1].Began? && Unsaved(t[..|t| - 1])))
  }

  /** The repository this call works with: the one it created, or the last answer to a lookup. */
  function Chosen(t: Trace): Option<Repository> {
    if t == [] then None else
    match t[|t| - 1]
    case Created(_, repository) => Some(repository)
    case LookedUp(_, _, found) => found
    case Began => None
    case _ => Chosen(t[..|t| - 1])
  }

  predicate Names(github: Option<Github>, r: Repository) {
    github.Some? && github.value.owner == r.owner && github.value.repo == r.name
  }

  /** The record names the repository this call works with. */
  predicate NamesChosen(t: Trace) {
    Chosen(t).Some? && !Unsaved(t) && Names(SavedGithub(t), Chosen(t).value)
  }

  predicate SameName(a: Option<Github>, b: Option<Github>) {
    a.Some? && b.Some? && a.value.owner == b.value.owner && a.value.repo == b.value.repo
  }

  /** The event happened in this call. */
  predicate InCall(t: Trace, e: Event) {
    t != [] && (t[|t| - 1] == e || (!t[|t| - 1].Began? && InCall(t[..|t| - 1], e)))
  }

  predicate Idle(t: Trace) {
    t == [] || t[|t| - 1].Ended?
  }

  function FailedWritesAtEnd(t: Trace): nat {
    if t != [] && t[|t| - 1].WriteFailed? then FailedWritesAtEnd(t[..|t| - 1]) + 1 else 0
  }

  predicate Settled(deployment: Option<Deployment>) {
    deployment.Some? ==> deployment.value.status == Published || deployment.value.status == Failed
  }

  ghost predicate NewestFirst(history: seq<Entry>) {
    forall i, j :: 0 <= i < j < |history| ==> history[i].at >= history[j].at
  }

  ghost predicate HistoryFine(m: Metadata) {
    m.deployment.Some? ==> |m.deployment.value.history| <= MAX_HISTORY && NewestFirst(m.deployment.value.history)
  }

  /** What one more event changes, event by event. */
  lemma ScannedNext(t: Trace, issues: nat, remote: Remote)
    ensures var after := t + [Scanned(issues, remote)];
            && (Clean(after) <==> issues == 0 && Agrees(remote, SavedGithub(t)))
                && (NoOrigin(after) <==> remote.NoRemote?)
            && Saved(after) == Saved(t) && Unsaved(after) == Unsaved(t) && !Idle(after) && Chosen(after) == Chosen(t)
  {
    assert (t + [Scanned(issues, remote)])[..|t|] == t;
  }

  lemma ConsentedNext(t: Trace)
    ensures var after := t + [Consented];
            && Consent(after) && Clean(after) == Clean(t) && NoOrigin(after) == NoOrigin(t)
            && Saved(after) == Saved(t) && Unsaved(after) == Unsaved(t) && !Idle(after) && Chosen(after) == Chosen(t)
  {
    assert (t + [Consented])[..|t|] == t;
  }

  lemma LookedUpNext(t: Trace, owner: string, name: string, found: Option<Repository>)
    ensures var after := t + [LookedUp(owner, name, found)];
            && Clean(after) == Clean(t) && Saved(after) == Saved(t) && Unsaved(after) == Unsaved(t) && !Idle(after)
            && Chosen(after) == found
  {
    assert (t + [LookedUp(owner, name, found)])[..|t|] == t;
  }

  lemma CreatedNext(t: Trace, asked: string, repository: Repository)
    ensures var after := t + [Created(asked, repository)];
            && Unsaved(after) && Clean(after) == Clean(t) && Saved(after) == Saved(t) && !Idle(after)
            && Chosen(after) == Some(repository)
  {
    assert (t + [Created(asked, repository)])[..|t|] == t;
  }

  lemma RecordedNext(t: Trace, m: Metadata)
    ensures var after := t + [Recorded(m)];
            && !Unsaved(after) && Clean(after) == Clean(t) && Saved(after) == Some(m) && !Idle(after)
            && Chosen(after) == Chosen(t)
  {
    assert (t + [Recorded(m)])[..|t|] == t;
  }

  lemma WriteFailedNext(t: Trace)
    ensures var after := t + [WriteFailed];
            && Unsaved(after) == Unsaved(t) && Saved(after) == Saved(t) && !Idle(after) && Chosen(after) == Chosen(t)
            && FailedWritesAtEnd(after) == FailedWritesAtEnd(t) + 1
  {
    assert (t + [WriteFailed])[..|t|] == t;
  }

  lemma CommittedNext(t: Trace, update: bool)
    ensures var after := t + [Committed(update)];
            && Clean(after) == Clean(t) && Saved(after) == Saved(t) && Unsaved(after) == Unsaved(t) && !Idle(after)
            && Chosen(after) == Chosen(t)
  {
    assert (t + [Committed(update)])[..|t|] == t;
  }

  lemma OriginIsNext(t: Trace, owner: string, name: string)
    ensures var after := t + [OriginIs(owner, name)];
            && OriginNames(after, owner, name) && Clean(after) == Clean(t) && Saved(after) == Saved(t)
            && Unsaved(after) == Unsaved(t) && !Idle(after) && Chosen(after) == Chosen(t)
  {
    assert (t + [OriginIs(owner, name)])[..|t|] == t;
  }

  lemma PushedNext(t: Trace, owner: string, name: string)
    ensures var after := t + [Pushed(owner, name)];
            Saved(after) == Saved(t) && Unsaved(after) == Unsaved(t) && !Idle(after) && Chosen(after) == Chosen(t)
  {
    assert (t + [Pushed(owner, name)])[..|t|] == t;
  }

  lemma InCallNext(t: Trace, x: Event, e: Event)
    ensures InCall(t + [x], e) <==> x == e || (!x.Began? && InCall(t, e))
  {
    assert (t + [x])[..|t|] == t;
  }

  lemma DeployedNext(t: Trace, updating: bool)
    ensures var after := t + [Deployed(updating)];
            Saved(after) == Saved(t) && Unsaved(after) == Unsaved(t) && !Idle(after) && Chosen(after) == Chosen(t)
  {
    assert (t + [Deployed(updating)])[..|t|] == t;
  }

  lemma RemovedNext(t: Trace, owner: string, name: string)
    ensures var after := t + [Removed(owner, name)];
            Saved(after) == Saved(t) && Unsaved(after) == Unsaved(t) && !Idle(after) && Chosen(after) == Chosen(t)
  {
    assert (t + [Removed(owner, name)])[..|t|] == t;
  }

  lemma BegunNext(t: Trace)
    ensures !Unsaved(t + [Began]) && Saved(t + [Began]) == Saved(t) && !Idle(t + [Began]) && Chosen(t + [Began]).None?
  {
    assert (t + [Began])[..|t|] == t;
  }

  lemma EndedNext(t: Trace, publishing: bool)
    ensures Saved(t + [Ended(publishing)]) == Saved(t) && Idle(t + [Ended(publishing)])
    ensures FailedWritesAtEnd(t) >= 1 ==> t != [] && t[|t| - 1].WriteFailed?
  {
    assert (t + [Ended(publishing)])[..|t|] == t;
  }

  // ----- Which effects may follow -----

  ghost predicate Allowed(t: Trace, e: Event) {
    && (e.Began? <==> Idle(t))
    && match e
    case Began => true
    case Scanned(_, _) => true
    case Consented => true
    case LookedUp(owner, name, _) =>
      Clean(t) && Chosen(t).None? && (SavedGithub(t).Some? ==> Names(SavedGithub(t), Repository(owner, name, "")))
    case Created(_, _) => Consent(t) && Clean(t) && NoOrigin(t) && SavedGithub(t).None? && !Unsaved(t)
        && Chosen(t).None?
    case Recorded(m) =>
      HistoryFine(m) && if Chosen(t).Some? then Names(m.github, Chosen(t).value) else m.github == SavedGithub(t)
    case WriteFailed => true
    case Committed(_) => true
    case OriginIs(_, _) => true
    case Deployed(_) => !Unsaved(t) && SavedDeployment(t).Some? && SavedDeployment(t).value.status == Deploying
    case Removed(owner, name) => Names(SavedGithub(t), Repository(owner, name, ""))
    case Pushed(owner, name) =>
      && Clean(t) && OriginNames(t, owner, name) && !Unsaved(t)
      && Names(SavedGithub(t), Repository(owner, name, ""))
    case Ended(publishing) =>
      && (publishing ==> Settled(SavedDeployment(t)) || FailedWritesAtEnd(t) >= 1)
      && (Unsaved(t) ==> FailedWritesAtEnd(t) >= 2)
  }

  ghost predicate AllowedAt(t: Trace, n: int)
    requires 0 <= n < |t|
  {
    Allowed(t[..n], t[n])
  }

  ghost predicate Legal(t: Trace) {
    forall n :: 0 <= n < |t| ==> AllowedAt(t, n)
  }

  lemma LegalNext(t: Trace, e: Event)
    requires Legal(t) && Allowed(t, e)
    ensures Legal(t + [e])
  {
    forall n | 0 <= n < |t + [e]| ensures AllowedAt(t + [e], n) {
      if n < |t| {
        assert AllowedAt(t, n);
        assert (t + [e])[..n] == t[..n];
      } else {
        assert (t + [e])[..n] == t;
      }
    }
  }

  lemma LegalPrefix(t: Trace, n: nat)
    requires Legal(t) && n <= |t|
    ensures Legal(t[..n])
    ensures n < |t| ==> Allowed(t[..n], t[n])
  {
    forall m | 0 <= m < n ensures AllowedAt(t[..n], m) {
      assert AllowedAt(t, m);
      assert t[..n][..m] == t[..m];
    }
    if n < |t| { assert AllowedAt(t, n); }
  }

  lemma LegalInit(t: Trace)
    requires Legal(t) && t != []
    ensures Legal(t[..|t| - 1]) && Allowed(t[..|t| - 1], t[|t| - 1])
  {
    LegalPrefix(t, |t| - 1);
  }

  // ----- At most one repository -----

  function Creations(t: Trace): nat {
    if t == [] then 0 else Creations(t[..|t| - 1]) + if t[|t| - 1].Created? then 1 else 0
  }

  /** The calls that left a repository behind which no record names. */
  function LostRepositories(t: Trace): nat {
    if t == [] then 0 else LostRepositories(t[..|t| - 1]) + if t[|t| - 1].Ended? && Unsaved(t[..|t| - 1]) then 1 else 0
  }

  function FailedWrites(t: Trace): nat {
    if t == [] then 0 else FailedWrites(t[..|t| - 1]) + if t[|t| - 1].WriteFailed? then 1 else 0
  }

  /** A repository that is known or about to be recorded stays the only one. */
  lemma {:induction false} CreationsCounted(t: Trace)
    requires Legal(t)
    ensures var pending := if Unsaved(t) && !Idle(t) then 1 else 0;
            pending <= Creations(t) - LostRepositories(t) <= pending + if SavedGithub(t).Some? then 1 else 0
    ensures SavedGithub(t).Some? ==> !Unsaved(t)
    ensures Unsaved(t) ==> Chosen(t).Some?
  {
    if t != [] {
      LegalInit(t);
      CreationsCounted(t[..|t| - 1]);
    }
  }

  /** Writes that failed, not counting those at the end, which the current call may yet add to. */
  lemma {:induction false} LostCostsTwoWrites(t: Trace)
    requires Legal(t)
    ensures 2 * LostRepositories(t) + FailedWritesAtEnd(t) <= FailedWrites(t)
  {
    if t != [] {
      LegalInit(t);
      LostCostsTwoWrites(t[..|t| - 1]);
    }
  }

  /**
   Over any number of publish and removeSite calls with faults anywhere, the repositories created are those lost, each
   at the cost of two failed writes in its call, and at most one more; with reliable writes, at most one.
   */
  lemma AtMostOneRepository(t: Trace)
    requires Legal(t)
    ensures LostRepositories(t) <= Creations(t) <= LostRepositories(t) + 1
    ensures 2 * LostRepositories(t) <= FailedWrites(t)
    ensures FailedWrites(t) <= 1 ==> Creations(t) <= 1
  {
    CreationsCounted(t);
    LostCostsTwoWrites(t);
  }

  /** Event j happened earlier in the same call as event i. */
  ghost predicate SameCall(t: Trace, j: nat, i: nat) {
    j < i <= |t| && forall k :: j < k < i ==> !t[k].Began?
  }

  /** A repository goes unrecorded up to event e of its call exactly while no write after its creation succeeds. */
  lemma {:induction false} UnrecordedExactly(t: Trace, i: nat, e: nat)
    requires Legal(t) && i < |t| && t[i].Created? && SameCall(t, i, e)
    ensures Unsaved(t[..e]) <==> forall k :: i < k < e ==> !t[k].Recorded?
    decreases e
  {
    var p := t[..e];
    assert p[..e - 1] == t[..e - 1] && p[e - 1] == t[e - 1];
    if e > i + 1 {
      assert SameCall(t, i, e - 1);
      assert t[..i + 1][|t[..i + 1]| - 1] == t[i];
      ChosenStays(t, i, e - 1);
      LegalPrefix(t, e - 1);
      UnrecordedExactly(t, i, e - 1);
    }
  }

  function WritesFailed(t: Trace, i: nat, e: nat): nat
    requires i <= e <= |t|
  {
    if e == i then 0 else WritesFailed(t, i, e - 1) + if t[e - 1].WriteFailed? then 1 else 0
  }

  lemma {:induction false} WritesAtEndAreInCall(t: Trace, i: nat, e: nat)
    requires i < e <= |t| && !t[i].WriteFailed?
    ensures FailedWritesAtEnd(t[..e]) <= WritesFailed(t, i + 1, e)
    decreases e
  {
    assert t[..e][..e - 1] == t[..e - 1] && t[..e][e - 1] == t[e - 1];
    if e > i + 1 { WritesAtEndAreInCall(t, i, e - 1); }
  }

  /**
   A call that created a repository loses it exactly when every write after the creation failed, and then at least
   two did; otherwise the record names that repository when the call ends.
   */
  lemma LostExactly(t: Trace, i: nat, e: nat)
    requires Legal(t) && i < e < |t| && t[i].Created? && SameCall(t, i, e) && t[e].Ended?
    ensures Unsaved(t[..e]) <==> forall k :: i < k < e ==> !t[k].Recorded?
    ensures Unsaved(t[..e]) ==> WritesFailed(t, i + 1, e) >= 2
    ensures !Unsaved(t[..e]) ==> Names(SavedGithub(t[..e]), t[i].repository)
  {
    UnrecordedExactly(t, i, e);
    LegalPrefix(t, e);
    WritesAtEndAreInCall(t, i, e);
    if !Unsaved(t[..e]) {
      var k :| i < k < e && t[k].Recorded?;
      CreatedIsNamed(t, i, k);
      NamedFromThere(t, i, k, e);
    }
  }

  // ----- The name on record -----

  /** Within a call, the repository it works with does not change any more. */
  lemma {:induction false} ChosenStays(t: Trace, i: nat, k: nat)
    requires Legal(t) && i < k <= |t| && Chosen(t[..i + 1]).Some? && SameCall(t, i, k)
    ensures Chosen(t[..k]) == Chosen(t[..i + 1])
    decreases k
  {
    if k > i + 1 {
      assert SameCall(t, i, k - 1);
      ChosenStays(t, i, k - 1);
      LegalPrefix(t, k - 1);
      assert t[..k][..k - 1] == t[..k - 1];
    }
  }

  /** Every record written after a creation, in the same call, names the repository that was created. */
  lemma CreatedIsNamed(t: Trace, i: nat, k: nat)
    requires Legal(t) && i < k < |t| && t[i].Created? && SameCall(t, i, k) && t[k].Recorded?
    ensures Names(t[k].metadata.github, t[i].repository)
  {
    assert t[..i + 1][|t[..i + 1]| - 1] == t[i];
    ChosenStays(t, i, k);
    LegalPrefix(t, k);
  }

  lemma {:induction false} NamedFromThere(t: Trace, i: nat, k: nat, e: nat)
    requires Legal(t) && i < k < e <= |t| && t[i].Created? && SameCall(t, i, e) && t[k].Recorded?
    ensures Names(SavedGithub(t[..e]), t[i].repository)
    decreases e
  {
    assert t[..e][..e - 1] == t[..e - 1] && t[..e][e - 1] == t[e - 1];
    if t[e - 1].Recorded? {
      assert SameCall(t, i, e - 1);
      CreatedIsNamed(t, i, e - 1);
    } else {
      assert SameCall(t, i, e - 1);
      NamedFromThere(t, i, k, e - 1);
    }
  }

  /** A record replaces the saved repository exactly when the call's lookup answered with another one. */
  lemma RecordRenamesExactly(t: Trace, i: nat)
    requires Legal(t) && i < |t| && t[i].Recorded? && SavedGithub(t[..i]).Some?
    ensures t[i].metadata.github.Some?
    ensures SameName(t[i].metadata.github, SavedGithub(t[..i])) <==>
              (Chosen(t[..i]).Some? ==> Names(SavedGithub(t[..i]), Chosen(t[..i]).value))
  {
    LegalPrefix(t, i);
  }

  /** GitHub answers every lookup with the repository of that owner and name. */
  ghost predicate AnswersAsAsked(t: Trace) {
    forall i :: 0 <= i < |t| && t[i].LookedUp? && t[i].found.Some? ==>
      t[i].found.value.owner == t[i].owner && t[i].found.value.name == t[i].name
  }

  lemma {:induction false} ChosenIsSaved(t: Trace)
    requires Legal(t) && AnswersAsAsked(t)
    ensures Chosen(t).Some? && SavedGithub(t).Some? ==> Names(SavedGithub(t), Chosen(t).value)
  {
    if t != [] {
      var init := t[..|t| - 1];
      LegalInit(t);
      assert AnswersAsAsked(init) by {
        forall i | 0 <= i < |init| && init[i].LookedUp? && init[i].found.Some?
          ensures init[i].found.value.owner == init[i].owner && init[i].found.value.name == init[i].name {
          assert t[i] == init[i];
        }
      }
      ChosenIsSaved(init);
      assert t[|t| - 1].LookedUp? && t[|t| - 1].found.Some? ==>
        t[|t| - 1].found.value.owner == t[|t| - 1].owner && t[|t| - 1].found.value.name == t[|t| - 1].name;
    }
  }

  /**
   A recorded repository is never forgotten, and as long as GitHub answers lookups with the repository asked for,
   the record keeps naming the same one.
   */
  lemma {:induction false} RepositoryStaysSaved(t: Trace, n: nat)
    requires Legal(t) && n <= |t| && SavedGithub(t[..n]).Some?
    ensures SavedGithub(t).Some?
    ensures AnswersAsAsked(t) ==> SameName(SavedGithub(t), SavedGithub(t[..n]))
  {
    if n < |t| {
      var init := t[..|t| - 1];
      LegalInit(t);
      assert init[..n] == t[..n];
      RepositoryStaysSaved(init, n);
      if AnswersAsAsked(t) {
        assert forall i :: 0 <= i < |init| ==> init[i] == t[i];
        ChosenIsSaved(init);
      }
    } else {
      assert t[..n] == t;
    }
  }

  // ----- Consent, clean scans, settled records -----

  lemma {:induction false} ConsentMeans(t: Trace) returns (j: nat)
    requires Consent(t)
    ensures j < |t| && t[j].Consented? && SameCall(t, j, |t|)
  {
    if t[|t| - 1].Consented? { j := |t| - 1; } else { j := ConsentMeans(t[..|t| - 1]); }
  }

  lemma {:induction false} CleanMeans(t: Trace) returns (j: nat)
    requires Clean(t)
    ensures j < |t| && t[j].Scanned? && t[j].issues == 0 && Agrees(t[j].remote, SavedGithub(t[..j]))
              && SameCall(t, j, |t|)
    ensures NoOrigin(t) ==> t[j].remote.NoRemote?
  {
    if t[|t| - 1].Scanned? { j := |t| - 1; } else {
      j := CleanMeans(t[..|t| - 1]);
      assert t[..|t| - 1][..j] == t[..j];
    }
  }

  lemma SameCallPrefix(t: Trace, j: nat, i: nat)
    requires i <= |t| && SameCall(t[..i], j, i)
    ensures SameCall(t, j, i)
  {
    forall k | j < k < i ensures !t[k].Began? { assert t[..i][k] == t[k]; }
  }

  /**
   Every repository was created after the student consented in the same call, with a clean scan, no origin and no
   saved repository.
   */
  lemma CreationNeedsConsent(t: Trace, i: nat) returns (consent: nat, scan: nat)
    requires Legal(t) && i < |t| && t[i].Created?
    ensures consent < i && t[consent].Consented? && SameCall(t, consent, i)
    ensures scan < i && t[scan].Scanned? && t[scan].issues == 0 && t[scan].remote.NoRemote? && SameCall(t, scan, i)
    ensures SavedGithub(t[..i]).None?
  {
    LegalPrefix(t, i);
    consent := ConsentMeans(t[..i]);
    scan := CleanMeans(t[..i]);
    SameCallPrefix(t, consent, i);
    SameCallPrefix(t, scan, i);
  }

  /**
   Every push follows, in the same call, a scan without issues whose origin agreed with the saved repository, and goes
   to the repository that origin names and that is already recorded.
   */
  lemma PushNeedsCleanScan(t: Trace, i: nat) returns (scan: nat)
    requires Legal(t) && i < |t| && t[i].Pushed?
    ensures scan < i && t[scan].Scanned? && t[scan].issues == 0 && SameCall(t, scan, i)
    ensures Agrees(t[scan].remote, SavedGithub(t[..scan]))
    ensures OriginNames(t[..i], t[i].owner, t[i].name)
    ensures Names(SavedGithub(t[..i]), Repository(t[i].owner, t[i].name, ""))
  {
    LegalPrefix(t, i);
    scan := CleanMeans(t[..i]);
    SameCallPrefix(t, scan, i);
    assert t[..i][..scan] == t[..scan];
  }

  /**
   When a call of publish ends, the saved deployment is published or failed, never in between, unless the last write
   failed.
   */
  lemma CallsEndSettled(t: Trace, i: nat)
    requires Legal(t) && i < |t| && t[i] == Ended(true)
    ensures Settled(SavedDeployment(t[..i])) || (i > 0 && t[i - 1].WriteFailed?)
  {
    LegalPrefix(t, i);
  }

  /** The saved history is always newest first and at most 20 entries long. */
  lemma {:induction false} HistoryStaysFine(t: Trace)
    requires Legal(t)
    ensures Saved(t).Some? ==> HistoryFine(Saved(t).value)
  {
    if t != [] {
      LegalInit(t);
      HistoryStaysFine(t[..|t| - 1]);
    }
  }
}
