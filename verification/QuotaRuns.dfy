/**
 Reservations over all time: any interleaving of calls in one process, with file operations that
 fail, crashes and restarts. A call holds the lock between its steps; a step is what runs between
 two awaits.
 */
module QuotaRuns {
  import opened Quota

  datatype Pc =
    | Waiting                                                   // behind the promise of the call before it
    | Holding                                                   // has the lock; reading the file, or about to decide
    | Writing(at: int, remaining: Remaining)                    // admitted in memory; temporary file not yet written
    | Renaming(at: int, remaining: Remaining, written: Usage)   // temporary file written
    | Durable(at: int, remaining: Remaining)                    // renamed; not yet returned
    | Done(outcome: Outcome)                                    // lock released

  datatype Call = Call(key: Workspace, pc: Pc)

  /**
   calls are those of the running process, in arrival order; disk is the usage file; admissions are the returned ones
   of all time.
   */
  datatype System = System(
    clock: int, calls: seq<Call>, attempts: Usage, loaded: bool, disk: Usage, admissions: Usage)

  datatype Event =
    | Tick(elapsed: nat)
    | Arrive(key: Workspace)
    | Acquire(call: nat)
    | Load(call: nat)
    | LoadFails(call: nat)
    | DecideNow(call: nat)
    | Write(call: nat)
    | WriteFails(call: nat)
    | Rename(call: nat)
    | RenameFails(call: nat)
    | Return(call: nat)
    | Crash

  function Initial(now: int): System {
    System(now, [], map[], false, map[], map[])
  }

  predicate At(s: System, i: nat) {
    i < |s.calls|
  }

  /** The promise a call waits for is the one its predecessor resolves when it is done. */
  predicate LockFree(s: System, i: nat)
    requires i < |s.calls|
  {
    i == 0 || s.calls[i - 1].pc.Done?
  }

  predicate Enabled(s: System, e: Event) {
    match e
    case Tick(_) => true
    case Arrive(_) => true
    case Acquire(i) => At(s, i) && s.calls[i].pc.Waiting? && LockFree(s, i)
    case Load(i) => At(s, i) && s.calls[i].pc.Holding? && !s.loaded
    case LoadFails(i) => At(s, i) && s.calls[i].pc.Holding? && !s.loaded
    case DecideNow(i) => At(s, i) && s.calls[i].pc.Holding? && s.loaded
    case Write(i) => At(s, i) && s.calls[i].pc.Writing?
    case WriteFails(i) => At(s, i) && s.calls[i].pc.Writing?
    case Rename(i) => At(s, i) && s.calls[i].pc.Renaming?
    case RenameFails(i) => At(s, i) && s.calls[i].pc.Renaming?
    case Return(i) => At(s, i) && s.calls[i].pc.Durable?
    case Crash => true
  }

  function Goto(s: System, i: nat, pc: Pc): System
    requires At(s, i)
  {
    s.(calls := s.calls[i := Call(s.calls[i].key, pc)])
  }

  function Admit(admissions: Usage, key: Workspace, at: int): Usage {
    admissions[key := Times(admissions, key) + [at]]
  }

  function DecideFor(s: System, i: nat): System
    requires At(s, i)
  {
    var d := Decide(s.attempts, s.calls[i].key, s.clock);
    Goto(s, i, if d.admitted.Some? then Writing(s.clock, d.admitted.value)
        else Done(LimitReached)).(attempts := d.attempts)
  }

  function Next(s: System, e: Event): System
    requires Enabled(s, e)
  {
    match e
    case Tick(elapsed) => s.(clock := s.clock + elapsed)
    case Arrive(key) => s.(calls := s.calls + [Call(key, Waiting)])
    case Acquire(i) => Goto(s, i, Holding)
    case Load(i) => s.(attempts := s.attempts + Loaded(s.disk, s.clock), loaded := true)
    case LoadFails(i) => Goto(s, i, Done(IoError))
    case DecideNow(i) => DecideFor(s, i)
    case Write(i) => Goto(s, i, Renaming(s.calls[i].pc.at, s.calls[i].pc.remaining, s.attempts))
    case WriteFails(i) => Goto(s, i, Done(IoError))
    case Rename(i) => Goto(s, i, Durable(s.calls[i].pc.at, s.calls[i].pc.remaining)).(disk := s.calls[i].pc.written)
    case RenameFails(i) => Goto(s, i, Done(IoError))
    case Return(i) =>
      Goto(s, i, Done(Admitted(s.calls[i].pc.remaining))).(admissions := Admit(s.admissions, s.calls[i].key,
          s.calls[i].pc.at))
    case Crash => s.(calls := [], attempts := map[], loaded := false)
  }

  ghost predicate Run(states: seq<System>, events: seq<Event>) {
    && |states| == |events| + 1
    && (exists now :: states[0] == Initial(now))
    && (forall i :: 0 <= i < |events| ==> Enabled(states[i], events[i]) && states[i + 1] == Next(states[i], events[i]))
  }

  // ----- What every step keeps -----

  /** Every window of the last day counts at least as much in usage as in the admissions. */
  ghost predicate Covers(usage: Usage, admissions: Usage, day: int) {
    forall key, lo, hi :: day <= lo ==> Count(Times(admissions, key), lo, hi) <= Count(Times(usage, key), lo, hi)
  }

  /** The half-open windows that end at t are within their limits. */
  predicate FitsAt(times: seq<int>, t: int) {
    Count(times, t - MINUTE, t) <= MAX_PER_MINUTE && Count(times, t - DAY, t) <= MAX_PER_DAY
  }

  ghost predicate WindowsHold(times: seq<int>) {
    forall t :: FitsAt(times, t)
  }

  /** The lock: only the first call that is not done can be past waiting. */
  ghost predicate LockInv(calls: seq<Call>) {
    forall i, j :: 0 <= i < j < |calls| && !calls[j].pc.Waiting? ==> calls[i].pc.Done?
  }

  /** What a request is told is left: exact for the windows that end at the request, and not negative. */
  predicate ExactlyLeft(usage: Usage, key: Workspace, at: int, remaining: Remaining) {
    && remaining.minute == MAX_PER_MINUTE - Count(Times(usage, key), at - MINUTE, at) >= 0
    && remaining.day == MAX_PER_DAY - Count(Times(usage, key), at - DAY, at) >= 0
  }

  /** An admission under way is in memory, is covered by what it will rely on, and fits its windows. */
  ghost predicate Sound(usage: Usage, admissions: Usage, now: int, key: Workspace, at: int, remaining: Remaining) {
    && at <= now
    && at in Times(usage, key) && ExactlyLeft(usage, key, at, remaining)
    && Bounded(Times(admissions, key), at)
    && Covers(usage, Admit(admissions, key, at), now - DAY)
    && Count(Times(admissions, key), at - MINUTE, at) < MAX_PER_MINUTE
    && Count(Times(admissions, key), at - DAY, at) < MAX_PER_DAY
  }

  ghost predicate UnderWay(s: System, key: Workspace, at: int, remaining: Remaining) {
    s.loaded && Sound(s.attempts, s.admissions, s.clock, key, at, remaining)
  }

  ghost predicate CallInv(s: System, call: Call) {
    match call.pc
    case Writing(at, remaining) => UnderWay(s, call.key, at, remaining)
    case Renaming(at, remaining, written) => UnderWay(s, call.key, at, remaining) && written == s.attempts
    case Durable(at, remaining) => UnderWay(s, call.key, at, remaining) && s.disk == s.attempts
    case _ => true
  }

  ghost predicate Inv(s: System) {
    && LockInv(s.calls)
    && (!s.loaded ==> s.attempts == map[])
    && NothingLaterThan(s.attempts, s.clock) && NothingLaterThan(s.disk, s.clock)
        && NothingLaterThan(s.admissions, s.clock)
    && Covers(s.disk, s.admissions, s.clock - DAY)
    && (s.loaded ==> Covers(s.attempts, s.admissions, s.clock - DAY))
    && (forall key :: WindowsHold(Times(s.admissions, key)))
    && (forall i :: 0 <= i < |s.calls| ==> CallInv(s, s.calls[i]))
  }

  /**
   A window cut short, or started later, counts no more; so one more admission fits wherever the windows ending at it
   had room.
   */
  lemma AdmissionKeepsWindows(times: seq<int>, at: int)
    requires WindowsHold(times) && Bounded(times, at)
    requires Count(times, at - MINUTE, at) < MAX_PER_MINUTE && Count(times, at - DAY, at) < MAX_PER_DAY
    ensures WindowsHold(times + [at])
  {
    forall t ensures FitsAt(times + [at], t) {
      assert FitsAt(times, t);
      if at <= t {
        CountClipped(times, t - MINUTE, t, at);
        CountClipped(times, t - DAY, t, at);
        CountMonotone(times, t - MINUTE, at, at - MINUTE, at);
        CountMonotone(times, t - DAY, at, at - DAY, at);
      }
    }
  }

  /** After a step of the holder, every other call's invariant is trivial. */
  lemma HolderStep(s: System, s': System, i: nat, pc: Pc)
    requires LockInv(s.calls) && At(s, i) && !s.calls[i].pc.Waiting? && !s.calls[i].pc.Done?
    requires s'.calls == s.calls[i := Call(s.calls[i].key, pc)] && CallInv(s', Call(s.calls[i].key, pc))
    ensures LockInv(s'.calls) && forall j :: 0 <= j < |s'.calls| ==> CallInv(s', s'.calls[j])
  {
  }

  lemma TickKeepsInv(s: System, elapsed: nat)
    requires Inv(s)
    ensures Inv(Next(s, Tick(elapsed)))
  {
    var s' := Next(s, Tick(elapsed));
    assert NothingLaterThan(s'.attempts, s'.clock) by { StillBounded(s.attempts, s.clock, s'.clock); }
    assert NothingLaterThan(s'.disk, s'.clock) by { StillBounded(s.disk, s.clock, s'.clock); }
    assert NothingLaterThan(s'.admissions, s'.clock) by { StillBounded(s.admissions, s.clock, s'.clock); }
    forall i | 0 <= i < |s.calls| ensures CallInv(s', s.calls[i]) {
      assert CallInv(s, s.calls[i]);
    }
  }

  lemma StillBounded(usage: Usage, now: int, later: int)
    requires NothingLaterThan(usage, now) && now <= later
    ensures NothingLaterThan(usage, later)
  {
    forall key | key in usage ensures Bounded(usage[key], later) {
      assert Bounded(usage[key], now);
    }
  }

  lemma ArriveKeepsInv(s: System, key: Workspace)
    requires Inv(s)
    ensures Inv(Next(s, Arrive(key)))
  {
    var s' := Next(s, Arrive(key));
    forall i | 0 <= i < |s.calls| ensures CallInv(s', s.calls[i]) {
      assert CallInv(s, s.calls[i]);
    }
  }

  lemma AcquireKeepsInv(s: System, i: nat)
    requires Inv(s) && Enabled(s, Acquire(i))
    ensures Inv(Next(s, Acquire(i)))
  {
    var s' := Next(s, Acquire(i));
    forall j | 0 <= j < |s'.calls| ensures CallInv(s', s'.calls[j]) {
      assert CallInv(s, s.calls[j]);
    }
  }

  lemma LoadKeepsInv(s: System, i: nat)
    requires Inv(s) && Enabled(s, Load(i))
    ensures Inv(Next(s, Load(i)))
  {
    var s' := Next(s, Load(i));
    LoadedIsBounded(s.disk, s.clock);
    assert s'.attempts == Loaded(s.disk, s.clock);
    forall key, lo, hi | s.clock - DAY <= lo
      ensures Count(Times(s.admissions, key), lo, hi) <= Count(Times(s'.attempts, key), lo, hi)
    {
      LoadedCount(s.disk, key, s.clock, lo, hi);
    }
  }

  lemma DecisionCoversWindow(usage: Usage, admissions: Usage, key: Workspace, now: int, k: Workspace, lo: int, hi: int)
    requires Covers(usage, admissions, now - DAY) && now - DAY <= lo
    ensures var d := Decide(usage, key, now);
            && Count(Times(admissions, k), lo, hi) <= Count(Times(d.attempts, k), lo, hi)
            && (d.admitted.Some? ==>
                Count(Times(Admit(admissions, key, now), k), lo, hi) <= Count(Times(d.attempts, k), lo, hi))
  {
    DecisionCount(usage, key, now, k, lo, hi);
    assert Count(Times(admissions, k), lo, hi) <= Count(Times(usage, k), lo, hi);
  }

  lemma DecisionCoversAll(usage: Usage, admissions: Usage, key: Workspace, now: int)
    requires Covers(usage, admissions, now - DAY)
    ensures Covers(Decide(usage, key, now).attempts, admissions, now - DAY)
    ensures Decide(usage, key, now).admitted.Some? ==>
              Covers(Decide(usage, key, now).attempts, Admit(admissions, key, now), now - DAY)
  {
    var d := Decide(usage, key, now);
    forall k, lo, hi | now - DAY <= lo
      ensures Count(Times(admissions, k), lo, hi) <= Count(Times(d.attempts, k), lo, hi)
    {
      DecisionCoversWindow(usage, admissions, key, now, k, lo, hi);
    }
    if d.admitted.Some? {
      forall k, lo, hi | now - DAY <= lo
        ensures Count(Times(Admit(admissions, key, now), k), lo, hi) <= Count(Times(d.attempts, k), lo, hi)
      {
        DecisionCoversWindow(usage, admissions, key, now, k, lo, hi);
      }
    }
  }

  lemma RoomForAdmission(usage: Usage, admissions: Usage, key: Workspace, now: int)
    requires Covers(usage, admissions, now - DAY) && NothingLaterThan(usage, now)
               && Decide(usage, key, now).admitted.Some?
    ensures Count(Times(admissions, key), now - MINUTE, now) < MAX_PER_MINUTE
    ensures Count(Times(admissions, key), now - DAY, now) < MAX_PER_DAY
  {
    DecisionIsExact(usage, key, now);
    assert Count(Times(admissions, key), now - MINUTE, now) <= Count(Times(usage, key), now - MINUTE, now);
    assert Count(Times(admissions, key), now - DAY, now) <= Count(Times(usage, key), now - DAY, now);
  }

  lemma AdmittedIsRecorded(usage: Usage, key: Workspace, now: int)
    requires Decide(usage, key, now).admitted.Some? && NothingLaterThan(usage, now)
    ensures now in Times(Decide(usage, key, now).attempts, key)
    ensures ExactlyLeft(Decide(usage, key, now).attempts, key, now, Decide(usage, key, now).admitted.value)
  {
    DecisionIsExact(usage, key, now);
    var recent := After(Times(Pruned(usage, now - DAY), key), now - DAY);
    assert (recent + [now])[|recent|] == now;
  }

  /** The counting argument of an admission: what memory covers has room, so the admissions have room. */
  lemma DecisionIsSound(usage: Usage, admissions: Usage, key: Workspace, now: int)
    requires NothingLaterThan(usage, now) && NothingLaterThan(admissions, now) && Covers(usage, admissions, now - DAY)
    requires Decide(usage, key, now).admitted.Some?
    ensures Sound(Decide(usage, key, now).attempts, admissions, now, key, now, Decide(usage, key, now).admitted.value)
  {
    DecisionCoversAll(usage, admissions, key, now);
    RoomForAdmission(usage, admissions, key, now);
    AdmittedIsRecorded(usage, key, now);
  }

  lemma DecideKeepsInv(s: System, i: nat)
    requires Inv(s) && Enabled(s, DecideNow(i))
    ensures Inv(Next(s, DecideNow(i)))
  {
    var s', key := Next(s, DecideNow(i)), s.calls[i].key;
    DecisionIsBounded(s.attempts, key, s.clock);
    DecisionCoversAll(s.attempts, s.admissions, key, s.clock);
    DecidedCall(s, i);
    HolderStep(s, s', i, s'.calls[i].pc);
  }

  lemma DecidedCall(s: System, i: nat)
    requires Inv(s) && Enabled(s, DecideNow(i))
    ensures CallInv(Next(s, DecideNow(i)), Next(s, DecideNow(i)).calls[i])
  {
    if Decide(s.attempts, s.calls[i].key, s.clock).admitted.Some? {
      DecisionIsSound(s.attempts, s.admissions, s.calls[i].key, s.clock);
    }
  }

  lemma FailKeepsInv(s: System, i: nat)
    requires Inv(s) && At(s, i) && !s.calls[i].pc.Waiting? && !s.calls[i].pc.Done?
    ensures Inv(Goto(s, i, Done(IoError)))
  {
    HolderStep(s, Goto(s, i, Done(IoError)), i, Done(IoError));
  }

  lemma WriteKeepsInv(s: System, i: nat)
    requires Inv(s) && Enabled(s, Write(i))
    ensures Inv(Next(s, Write(i)))
  {
    assert CallInv(s, s.calls[i]);
    HolderStep(s, Next(s, Write(i)), i, Next(s, Write(i)).calls[i].pc);
  }

  lemma RenameKeepsInv(s: System, i: nat)
    requires Inv(s) && Enabled(s, Rename(i))
    ensures Inv(Next(s, Rename(i)))
  {
    assert CallInv(s, s.calls[i]);
    HolderStep(s, Next(s, Rename(i)), i, Next(s, Rename(i)).calls[i].pc);
  }

  lemma ReturnKeepsInv(s: System, i: nat)
    requires Inv(s) && Enabled(s, Return(i))
    ensures Inv(Next(s, Return(i)))
  {
    var s', key, at := Next(s, Return(i)), s.calls[i].key, s.calls[i].pc.at;
    assert CallInv(s, s.calls[i]);
    AdmissionKeepsWindows(Times(s.admissions, key), at);
    forall k ensures WindowsHold(Times(s'.admissions, k)) {
      assert WindowsHold(Times(s.admissions, k));
    }
    forall k | k in s'.admissions ensures Bounded(s'.admissions[k], s'.clock) {
      assert k in s.admissions ==> Bounded(s.admissions[k], s.clock);
    }
    HolderStep(s, s', i, s'.calls[i].pc);
  }

  lemma StepKeepsInv(s: System, e: Event)
    requires Inv(s) && Enabled(s, e)
    ensures Inv(Next(s, e))
  {
    match e
    case Tick(elapsed) => TickKeepsInv(s, elapsed);
    case Arrive(key) => ArriveKeepsInv(s, key);
    case Acquire(i) => AcquireKeepsInv(s, i);
    case Load(i) => LoadKeepsInv(s, i);
    case LoadFails(i) => FailKeepsInv(s, i);
    case DecideNow(i) => DecideKeepsInv(s, i);
    case Write(i) => WriteKeepsInv(s, i);
    case WriteFails(i) => FailKeepsInv(s, i);
    case Rename(i) => RenameKeepsInv(s, i);
    case RenameFails(i) => FailKeepsInv(s, i);
    case Return(i) => ReturnKeepsInv(s, i);
    case Crash =>
  }

  lemma {:induction false} RunKeepsInv(states: seq<System>, events: seq<Event>, n: nat)
    requires Run(states, events) && n < |states|
    ensures Inv(states[n])
  {
    if n > 0 {
      RunKeepsInv(states, events, n - 1);
      StepKeepsInv(states[n - 1], events[n - 1]);
    }
  }

  // ----- The promises -----

  /**
   In every run, with any interleaving, failed write, crash or restart, every half-open window of a
   minute holds at most ten admissions of a workspace, and every window of a day at most a hundred.
   */
  lemma QuotaHoldsOverAllTime(states: seq<System>, events: seq<Event>, n: nat, key: Workspace, t: int)
    requires Run(states, events) && n < |states|
    ensures Count(Times(states[n].admissions, key), t - MINUTE, t) <= MAX_PER_MINUTE
    ensures Count(Times(states[n].admissions, key), t - DAY, t) <= MAX_PER_DAY
  {
    RunKeepsInv(states, events, n);
    assert WindowsHold(Times(states[n].admissions, key));
    assert FitsAt(Times(states[n].admissions, key), t);
  }

  /** At most one call of the process is between acquiring and releasing the lock, and calls are served in order. */
  lemma LockIsExclusive(states: seq<System>, events: seq<Event>, n: nat, i: nat, j: nat)
    requires Run(states, events) && n < |states| && i < j < |states[n].calls|
    ensures states[n].calls[j].pc.Waiting? || states[n].calls[i].pc.Done?
  {
    RunKeepsInv(states, events, n);
  }

  /** When an admission is returned it is in the usage file, and what it reports as left is exact for that file. */
  lemma AdmissionIsDurable(states: seq<System>, events: seq<Event>, n: nat, i: nat)
    requires Run(states, events) && n < |events| && events[n] == Return(i)
    ensures At(states[n], i) && states[n].calls[i].pc.Durable?
    ensures var call := states[n].calls[i];
            && call.pc.at in Times(states[n].disk, call.key)
            && ExactlyLeft(states[n].disk, call.key, call.pc.at, call.pc.remaining)
            && states[n + 1].calls[i].pc == Done(Admitted(call.pc.remaining))
            && Times(states[n + 1].admissions, call.key) == Times(states[n].admissions, call.key) + [call.pc.at]
  {
    RunKeepsInv(states, events, n);
    assert CallInv(states[n], states[n].calls[i]);
  }

  /** Every admission of the last day is in the usage file in every later state, crashes included. */
  lemma AdmissionsSurvive(states: seq<System>, events: seq<Event>, n: nat, key: Workspace, at: int)
    requires Run(states, events) && n < |states|
    requires at in Times(states[n].admissions, key) && states[n].clock - DAY < at
    ensures at in Times(states[n].disk, key)
  {
    RunKeepsInv(states, events, n);
    CountIsMember(Times(states[n].admissions, key), at);
    CountIsMember(Times(states[n].disk, key), at);
  }

  // ----- The lock is always released -----

  function Rank(pc: Pc, loaded: bool): nat {
    match pc
    case Waiting => 6
    case Holding => if loaded then 4 else 5
    case Writing(_, _) => 3
    case Renaming(_, _, _) => 2
    case Durable(_, _) => 1
    case Done(_) => 0
  }

  /** The next step of the first call that is not done. */
  function NextStep(s: System, i: nat): Event
    requires At(s, i) && !s.calls[i].pc.Done?
  {
    match s.calls[i].pc
    case Waiting => Acquire(i)
    case Holding => if s.loaded then DecideNow(i) else Load(i)
    case Writing(_, _) => Write(i)
    case Renaming(_, _, _) => Rename(i)
    case Durable(_, _) => Return(i)
  }

  /** A step of call i, successful or not. */
  predicate OwnedBy(e: Event, i: nat) {
    e in {Acquire(i), Load(i), LoadFails(i), DecideNow(i), Write(i), WriteFails(i), Rename(i), RenameFails(i),
        Return(i)}
  }

  /** The first call that is not done always has a step it can take. */
  lemma FirstCallCanStep(s: System, i: nat)
    requires At(s, i) && !s.calls[i].pc.Done? && forall j :: 0 <= j < i ==> s.calls[j].pc.Done?
    ensures Enabled(s, NextStep(s, i)) && OwnedBy(NextStep(s, i), i)
  {
  }

  /** Every step of a call, failures included, brings it closer to releasing the lock. */
  lemma OwnStepsProgress(s: System, e: Event, i: nat)
    requires Enabled(s, e) && OwnedBy(e, i)
    ensures At(s, i) && At(Next(s, e), i)
    ensures Rank(Next(s, e).calls[i].pc, Next(s, e).loaded) < Rank(s.calls[i].pc, s.loaded)
  {
  }

  /** No other step but a crash takes a call back. */
  lemma StepsDoNotSetBack(s: System, e: Event, i: nat)
    requires Enabled(s, e) && e != Crash && At(s, i)
    ensures At(Next(s, e), i) && Next(s, e).calls[i].key == s.calls[i].key
    ensures Rank(Next(s, e).calls[i].pc, Next(s, e).loaded) <= Rank(s.calls[i].pc, s.loaded)
  {
  }

  /** What the first n calls have still to do. */
  function Work(s: System, n: nat): nat
    requires n <= |s.calls|
  {
    if n == 0 then 0 else Work(s, n - 1) + Rank(s.calls[n - 1].pc, s.loaded)
  }

  predicate OwnedBelow(e: Event, n: nat) {
    exists i: nat :: i < n && OwnedBy(e, i)
  }

  lemma {:induction false} WorkShrinks(s: System, e: Event, n: nat)
    requires Enabled(s, e) && e != Crash && n <= |s.calls|
    ensures n <= |Next(s, e).calls|
    ensures Work(Next(s, e), n) + (if OwnedBelow(e, n) then 1 else 0) <= Work(s, n)
  {
    if n > 0 {
      WorkShrinks(s, e, n - 1);
      StepsDoNotSetBack(s, e, n - 1);
      if OwnedBy(e, n - 1) { OwnStepsProgress(s, e, n - 1); }
    }
  }

  /** How many steps from lo to hi are steps of the first n calls. */
  function OwnSteps(events: seq<Event>, lo: nat, hi: nat, n: nat): nat
    requires lo <= hi <= |events|
  {
    if lo == hi then 0 else OwnSteps(events, lo, hi - 1, n) + if OwnedBelow(events[hi - 1], n) then 1 else 0
  }

  ghost predicate NoCrash(events: seq<Event>, lo: nat, hi: nat)
    requires lo <= hi <= |events|
  {
    forall k :: lo <= k < hi ==> events[k] != Crash
  }

  lemma {:induction false} StepsUseUpWork(states: seq<System>, events: seq<Event>, lo: nat, hi: nat, n: nat)
    requires Run(states, events) && lo <= hi < |states| && NoCrash(events, lo, hi) && n <= |states[lo].calls|
    ensures n <= |states[hi].calls|
    ensures OwnSteps(events, lo, hi, n) + Work(states[hi], n) <= Work(states[lo], n)
    decreases hi
  {
    if lo < hi {
      StepsUseUpWork(states, events, lo, hi - 1, n);
      WorkShrinks(states[hi - 1], events[hi - 1], n);
    }
  }

  lemma {:induction false} NoWorkLeft(s: System, n: nat)
    requires n <= |s.calls|
    ensures Work(s, n) <= 6 * n
    ensures Work(s, n) == 0 <==> forall j :: 0 <= j < n ==> s.calls[j].pc.Done?
  {
    if n > 0 { NoWorkLeft(s, n - 1); }
  }

  /** The first of the calls up to i that is not done. */
  lemma {:induction false} FirstUnfinished(s: System, i: nat) returns (j: nat)
    requires At(s, i) && !s.calls[i].pc.Done?
    ensures j <= i && !s.calls[j].pc.Done? && forall k :: 0 <= k < j ==> s.calls[k].pc.Done?
  {
    if k: nat :| k < i && !s.calls[k].pc.Done? { j := FirstUnfinished(s, k); } else { j := i; }
  }

  /**
   No call waits for ever on the lock. From any state of any run without a crash in between, call i and every call
   before it are done after as many steps of theirs as they have work left, which is at most six each, whatever other
   steps come between and whether or not theirs fail; and until call i is done, one of them can take such a step.
   */
  lemma LockIsReleased(states: seq<System>, events: seq<Event>, lo: nat, hi: nat, i: nat)
    requires Run(states, events) && lo <= hi < |states| && NoCrash(events, lo, hi) && At(states[lo], i)
    ensures At(states[hi], i) && Work(states[lo], i + 1) <= 6 * (i + 1)
    ensures OwnSteps(events, lo, hi, i + 1) >= Work(states[lo], i + 1) ==>
              forall j :: 0 <= j <= i ==> states[hi].calls[j].pc.Done?
    ensures !states[hi].calls[i].pc.Done? ==> exists e :: Enabled(states[hi], e) && OwnedBelow(e, i + 1)
  {
    StepsUseUpWork(states, events, lo, hi, i + 1);
    NoWorkLeft(states[lo], i + 1);
    NoWorkLeft(states[hi], i + 1);
    if !states[hi].calls[i].pc.Done? {
      var j := FirstUnfinished(states[hi], i);
      FirstCallCanStep(states[hi], j);
      assert OwnedBelow(NextStep(states[hi], j), i + 1);
    }
  }
}
