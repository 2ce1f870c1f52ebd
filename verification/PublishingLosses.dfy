/**
 How a project gets more than one repository: replies on which each call of publish
 (packages/publishing/src/publishing-service.ts) creates a repository and loses it again, and replies on which the
 record of one repository is replaced by that of another.
 */
module PublishingLosses {
  import opened Common
  import opened PublishingService
  import opened PublishingTrace

  const CALLS := 13

  /**
   Every request succeeds, but the tenth and twelfth reply of a call, which are to writes of the record, are faults.
   */
  function FullDisk(r: Repository): nat -> Answer {
    step => Answer(
      if step % CALLS == 10 || step % CALLS == 12 then Some("disk full") else None,
      true, "student", true, "", false, "main", NoRemote, true, 0, None, r, true, "", OtherState, "", "", 0)
  }

  lemma ClockStandsStill(r: Repository)
    ensures ClockMonotone(FullDisk(r))
  {
    forall i: nat, j: nat | i <= j ensures NotLater(FullDisk(r), i, j) {}
  }

  lemma StepInCall(n: nat, k: nat)
    requires k < CALLS
    ensures (CALLS * n + k) % CALLS == k
  {
  }

  lemma FaultsInCall(r: Repository, n: nat, k: nat)
    requires k < CALLS
    ensures FullDisk(r)(CALLS * n + k).fault.Some? <==> k == 10 || k == 12
  {
    StepInCall(n, k);
  }

  lemma FineExactly(publisher: Publisher, r: Repository, n: nat, k: nat)
    requires publisher.env.answers == FullDisk(r) && k < CALLS
    ensures publisher.Fine(CALLS * n + k) <==> k != 10 && k != 12
  {
    FaultsInCall(r, n, k);
  }

  lemma EveryCallIsReady(publisher: Publisher, r: Repository, n: nat)
    requires publisher.env.answers == FullDisk(r)
    ensures publisher.ReadyAt(CALLS * n, None) && publisher.ChoosingAt(CALLS * n) == CALLS * n + 5
  {
    FineExactly(publisher, r, n, 0);
    FineExactly(publisher, r, n, 1);
    FineExactly(publisher, r, n, 2);
    FineExactly(publisher, r, n, 3);
    FineExactly(publisher, r, n, 4);
    assert publisher.FilesReady(CALLS * n);
  }

  lemma EveryCallCreates(publisher: Publisher, r: Repository, n: nat)
    requires publisher.env.answers == FullDisk(r)
    ensures publisher.CanCreate(CALLS * n + 6) && publisher.FreeName(CALLS * n + 6) == 0
    ensures publisher.CreatedAt(CALLS * n + 6) == r
  {
    FirstNameIsFree(publisher, r, n);
    publisher.FreeNameIs(CALLS * n + 6, 0);
  }

  lemma FirstNameIsFree(publisher: Publisher, r: Repository, n: nat)
    requires publisher.env.answers == FullDisk(r)
    ensures publisher.CreatesAt(CALLS * n + 6, 0)
  {
    FineExactly(publisher, r, n, 6);
    FineExactly(publisher, r, n, 7);
    FineExactly(publisher, r, n, 8);
  }

  lemma EveryCallLoses(publisher: Publisher, r: Repository, n: nat, base: string)
    requires publisher.confirms && publisher.env.answers == FullDisk(r)
    ensures publisher.LosesAt(CALLS * n, None) && publisher.WriteAt(CALLS * n, None) == CALLS * n + 10
    ensures publisher.ChoiceEvents(CALLS * n, None, base)
              == [Scanned(0, NoRemote)] + ([Consented] + [Created(base, r)])
  {
    EveryCallIsReady(publisher, r, n);
    FineExactly(publisher, r, n, 5);
    EveryCallCreates(publisher, r, n);
    FineExactly(publisher, r, n, 10);
    FineExactly(publisher, r, n, 12);
  }

  lemma NextCounts(t: Trace, e: Event)
    ensures Saved(t + [e]) == (if e.Recorded? then Some(e.metadata) else Saved(t))
    ensures Creations(t + [e]) == Creations(t) + (if e.Created? then 1 else 0)
    ensures FailedWrites(t + [e]) == FailedWrites(t) + (if e.WriteFailed? then 1 else 0)
    ensures LostRepositories(t + [e]) == LostRepositories(t) + (if e.Ended? && Unsaved(t) then 1 else 0)
    ensures Unsaved(t + [e]) <==> e.Created? || (!e.Recorded? && !e.Began? && Unsaved(t))
  {
    assert (t + [e])[..|t|] == t;
  }

  function Creating(t: Trace, base: string, r: Repository): Trace {
    t + [Began] + [Scanned(0, NoRemote)] + [Consented] + [Created(base, r)]
  }

  function Losing(t: Trace): Trace {
    t + [WriteFailed] + [WriteFailed] + [Ended(true)]
  }

  lemma CreatingCounts(t: Trace, base: string, r: Repository)
    ensures var after := Creating(t, base, r);
            && Creations(after) == Creations(t) + 1 && LostRepositories(after) == LostRepositories(t)
            && FailedWrites(after) == FailedWrites(t) && Saved(after) == Saved(t) && Unsaved(after)
  {
    NextCounts(t, Began);
    NextCounts(t + [Began], Scanned(0, NoRemote));
    NextCounts(t + [Began] + [Scanned(0, NoRemote)], Consented);
    NextCounts(t + [Began] + [Scanned(0, NoRemote)] + [Consented], Created(base, r));
  }

  lemma LosingCounts(t: Trace)
    requires Unsaved(t)
    ensures var after := Losing(t);
            && Creations(after) == Creations(t) && LostRepositories(after) == LostRepositories(t) + 1
            && FailedWrites(after) == FailedWrites(t) + 2 && Saved(after) == Saved(t)
  {
    NextCounts(t, WriteFailed);
    NextCounts(t + [WriteFailed], WriteFailed);
    NextCounts(t + [WriteFailed] + [WriteFailed], Ended(true));
  }

  lemma LostCallParts(t: Trace, base: string, r: Repository)
    ensures Losing(Creating(t, base, r)) == t + LostCall([Scanned(0, NoRemote)] + ([Consented] + [Created(base, r)]))
  {
  }

  lemma LostCallCounts(t: Trace, base: string, r: Repository)
    ensures var after := t + LostCall([Scanned(0, NoRemote)] + ([Consented] + [Created(base, r)]));
            && Creations(after) == Creations(t) + 1 && LostRepositories(after) == LostRepositories(t) + 1
            && FailedWrites(after) == FailedWrites(t) + 2 && Saved(after) == Saved(t)
  {
    CreatingCounts(t, base, r);
    LosingCounts(Creating(t, base, r));
    LostCallParts(t, base, r);
  }

  /**
   For every n, n calls of publish that create n repositories, none of them on record, with two failed writes each.
   */
  method LoseRepositories(n: nat, base: string, r: Repository, wording: Failure -> string) returns (env: Environment)
    ensures env.Valid() && Idle(env.trace) && env.stored == None
    ensures Creations(env.trace) == n && LostRepositories(env.trace) == n && FailedWrites(env.trace) == 2 * n
  {
    ClockStandsStill(r);
    env := new Environment(FullDisk(r));
    var publisher := new Publisher(env, 40, true, wording);
    for i := 0 to n
      invariant env.Valid() && Idle(env.trace) && env.stored == None && env.step == CALLS * i
      invariant Creations(env.trace) == i && LostRepositories(env.trace) == i && FailedWrites(env.trace) == 2 * i
    {
      EveryCallLoses(publisher, r, i, base);
      LostCallCounts(env.trace, base, r);
      var result := publisher.Publish(base);
    }
  }

  // ----- Another repository on record -----

  /**
   The first write of the first call is a fault. In the first call no repository is found and r is created; from
   step 18 on, every lookup is answered with other.
   */
  function Moved(r: Repository, other: Repository): nat -> Answer {
    step => Answer(
      if step == 10 then Some("disk full") else None, true, "student", true, "", false, "main", NoRemote, true, 0,
      if step >= 18 then Some(other) else None, r, true, "", OtherState, "", "", 0)
  }

  lemma MovedClock(r: Repository, other: Repository)
    ensures ClockMonotone(Moved(r, other))
  {
    forall i: nat, j: nat | i <= j ensures NotLater(Moved(r, other), i, j) {}
  }

  lemma FirstCallIsReady(publisher: Publisher, r: Repository, other: Repository)
    requires publisher.env.answers == Moved(r, other)
    ensures publisher.ReadyAt(0, None) && publisher.ChoosingAt(0) == 5
  {
    assert publisher.FilesReady(0);
  }

  lemma FirstCallCreates(publisher: Publisher, r: Repository, other: Repository)
    requires publisher.env.answers == Moved(r, other)
    ensures publisher.CanCreate(6) && publisher.FreeName(6) == 0 && publisher.CreatedAt(6) == r
  {
    assert publisher.CreatesAt(6, 0);
    publisher.FreeNameIs(6, 0);
  }

  /** The first call creates r, and records it with its failure. */
  lemma FirstCallRecords(publisher: Publisher, r: Repository, other: Repository)
    requires publisher.confirms && publisher.env.answers == Moved(r, other)
    ensures publisher.ChoiceAt(0, None) && publisher.ChosenAt(0, None) == r
    ensures publisher.WriteAt(0, None) == 10 && !publisher.Fine(10) && publisher.KeptAt(0, None)
  {
    FirstCallIsReady(publisher, r, other);
    FirstCallCreates(publisher, r, other);
  }

  /** The second call looks r up, is answered with the other repository, and records that. */
  lemma SecondCallRenames(publisher: Publisher, r: Repository, other: Repository, github: Option<Github>)
    requires publisher.env.answers == Moved(r, other)
    requires Names(github, r) && (other.owner, other.name) != (r.owner, r.name)
    ensures publisher.RenamesAt(13, github) && publisher.ChosenAt(13, github) == other
  {
    assert publisher.FilesReady(13) && publisher.ChoosingAt(13) == 18;
    assert publisher.WriteAt(13, github) == 19;
  }

  /**
   For any two repositories of different names, two calls of publish: after the first the record names the one created
   in it, after the second the other one.
   */
  method RenameRepository(r: Repository, other: Repository, base: string, wording: Failure -> string)
    returns (env: Environment, ghost before: Trace)
    requires (other.owner, other.name) != (r.owner, r.name)
    ensures env.Valid() && before <= env.trace && Idle(before) && Idle(env.trace)
    ensures Names(SavedGithub(before), r) && Names(SavedGithub(env.trace), other)
  {
    MovedClock(r, other);
    env := new Environment(Moved(r, other));
    var publisher := new Publisher(env, 40, true, wording);
    FirstCallRecords(publisher, r, other);
    var first := publisher.Publish(base);
    before := env.trace;
    SecondCallRenames(publisher, r, other, SavedGithub(before));
    var second := publisher.Publish(base);
  }
}
