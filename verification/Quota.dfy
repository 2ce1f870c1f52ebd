/**
 The request quota of editor completion (packages/paseo-adapter/src/editor-completion.ts): the
 window counts, the pruning, and the fields the service updates under its lock.
 */
module Quota {
  import opened Common

  const MAX_PER_MINUTE := 10
  const MAX_PER_DAY := 100
  const MINUTE := 60_000
  const DAY := 86_400_000

  /** A workspace, by the digest of its root. */
  type Workspace = nat

  /** Request times, in milliseconds, per workspace: the attempts map and the content of the usage file. */
  type Usage = map<Workspace, seq<int>>

  function Times(usage: Usage, key: Workspace): seq<int> {
    if key in usage then usage[key] else []
  }

  function Later(t: int): int -> bool {
    at => at > t
  }

  /** times.filter(at => at > t) */
  function After(times: seq<int>, t: int): seq<int> {
    Filter(Later(t), times)
  }

  /** How many of the times lie in the half-open window (lo, hi]. */
  function Count(times: seq<int>, lo: int, hi: int): nat {
    if times == [] then 0 else
    var last := times[|times| - 1];
    Count(times[..|times| - 1], lo, hi) + if lo < last <= hi then 1 else 0
  }

  /** What is kept of a read usage file. */
  function Loaded(file: Usage, now: int): Usage {
    map key | key in file :: After(file[key], now - DAY)
  }

  function Pruned(usage: Usage, day: int): Usage {
    map key | key in usage && After(usage[key], day) != [] :: After(usage[key], day)
  }

  datatype Remaining = Remaining(minute: int, day: int)

  /** The attempts after the synchronous part of a reservation, and what is left if it was admitted. */
  datatype Decision = Decision(attempts: Usage, admitted: Option<Remaining>)

  function Decide(usage: Usage, key: Workspace, now: int): Decision {
    var pruned := Pruned(usage, now - DAY);
    var recent := After(Times(pruned, key), now - DAY);
    var minuteCount := |After(recent, now - MINUTE)|;
    if minuteCount >= MAX_PER_MINUTE || |recent| >= MAX_PER_DAY then Decision(pruned, None)
    else Decision(pruned[key := recent + [now]],
        Some(Remaining(MAX_PER_MINUTE - minuteCount - 1, MAX_PER_DAY - (|recent| + 1))))
  }

  /** What reading the usage file yields; a missing file is no error. */
  datatype FileRead = Content(usage: Usage) | Missing | Unreadable

  datatype Outcome = Admitted(remaining: Remaining) | LimitReached | IoError

  /** The service's fields, and reserveLocked with the results of its file operations as parameters. */
  class EditorCompletionService {
    var attempts: Usage
    var loaded: bool

    constructor ()
      ensures attempts == map[] && !loaded
    {
      attempts, loaded := map[], false;
    }

    method Merge(file: Usage, now: int)
      modifies this`attempts
      ensures attempts == old(attempts) + Loaded(file, now)
    {
      var keys := file.Keys;
      while keys != {}
        invariant keys <= file.Keys
        invariant forall key :: key in attempts <==> key in old(attempts) || key in file.Keys - keys
        invariant forall key :: key in attempts ==>
                    attempts[key] == if key in file && key !in keys then Loaded(file, now)[key] else old(attempts)[key]
      {
        var key :| key in keys;
        attempts := attempts[key := After(file[key], now - DAY)];
        keys := keys - {key};
      }
    }

    method Load(file: FileRead, now: int) returns (ok: bool)
      modifies this
      ensures ok == (old(loaded) || !file.Unreadable?)
      ensures loaded == ok
      ensures attempts == if !old(loaded) && file.Content? then old(attempts) + Loaded(file.usage, now)
                else old(attempts)
    {
      if !loaded {
        if file.Unreadable? { return false; }
        if file.Content? { Merge(file.usage, now); }
        loaded := true;
      }
      ok := true;
    }

    /** The pruning loop: entries with nothing left in the last day are deleted. */
    method Prune(day: int)
      modifies this`attempts
      ensures attempts == Pruned(old(attempts), day)
    {
      var keys := attempts.Keys;
      while keys != {}
        invariant keys <= old(attempts).Keys
        invariant forall key :: key in keys ==> key in attempts && attempts[key] == old(attempts)[key]
        invariant forall key :: key !in keys ==> (key in attempts <==> key in Pruned(old(attempts), day))
        invariant forall key :: key in attempts && key !in keys ==> attempts[key] == Pruned(old(attempts), day)[key]
      {
        var key :| key in keys;
        var active := After(attempts[key], day);
        if active != [] { attempts := attempts[key := active]; } else { attempts := attempts - {key}; }
        keys := keys - {key};
      }
    }

    /** The synchronous part between the load and the first write. */
    method Admit(key: Workspace, now: int) returns (remaining: Option<Remaining>)
      modifies this`attempts
      ensures Decision(attempts, remaining) == Decide(old(attempts), key, now)
    {
      var day := now - DAY;
      Prune(day);
      var recent := After(Times(attempts, key), day);
      var minuteCount := |After(recent, now - MINUTE)|;
      if minuteCount >= MAX_PER_MINUTE || |recent| >= MAX_PER_DAY { return None; }
      recent := recent + [now];
      attempts := attempts[key := recent];
      remaining := Some(Remaining(MAX_PER_MINUTE - minuteCount - 1, MAX_PER_DAY - |recent|));
    }

    /**
     One reservation under the lock. The file is replaced only by a successful rename; a failed write
     leaves the attempt counted in memory and is reported as an error.
     */
    method ReserveLocked(key: Workspace, now: int, read: FileRead, written: bool, renamed: bool, disk: Usage)
      returns (r: Outcome, disk': Usage)
      modifies this
      ensures !old(loaded) && read.Unreadable? ==> r == IoError && disk' == disk && !loaded && attempts == old(attempts)
      ensures old(loaded) || !read.Unreadable? ==>
                var start := if !old(loaded) && read.Content? then old(attempts) + Loaded(read.usage, now)
                    else old(attempts);
                var d := Decide(start, key, now);
                && loaded && attempts == d.attempts
                && (d.admitted.None? ==> r == LimitReached && disk' == disk)
                && (d.admitted.Some? && written && renamed ==> r == Admitted(d.admitted.value) && disk' == d.attempts)
                && (d.admitted.Some? && !(written && renamed) ==> r == IoError && disk' == disk)
    {
      disk' := disk;
      var ok := Load(read, now);
      if !ok { return IoError, disk; }
      var remaining := Admit(key, now);
      if remaining.None? { return LimitReached, disk; }
      if !written || !renamed { return IoError, disk; }
      return Admitted(remaining.value), attempts;
    }
  }

  // ----- Counting -----

  ghost predicate Bounded(times: seq<int>, hi: int) {
    forall i :: 0 <= i < |times| ==> times[i] <= hi
  }

  lemma AfterSnoc(times: seq<int>, at: int, t: int)
    ensures After(times + [at], t) == After(times, t) + if at > t then [at] else []
  {
    assert (times + [at])[..|times|] == times;
  }

  lemma CountSnoc(times: seq<int>, at: int, lo: int, hi: int)
    ensures Count(times + [at], lo, hi) == Count(times, lo, hi) + if lo < at <= hi then 1 else 0
  {
    assert (times + [at])[..|times|] == times;
  }

  /** Dropping what lies at or before t does not change the count of a window that starts at t or later. */
  lemma {:induction false} CountAfter(times: seq<int>, t: int, lo: int, hi: int)
    requires t <= lo
    ensures Count(After(times, t), lo, hi) == Count(times, lo, hi)
  {
    if times != [] {
      var init, last := times[..|times| - 1], times[|times| - 1];
      assert times == init + [last];
      AfterSnoc(init, last, t);
      CountSnoc(init, last, lo, hi);
      CountAfter(init, t, lo, hi);
      if last > t {
        CountSnoc(After(init, t), last, lo, hi);
      } else {
        assert After(times, t) == After(init, t);
      }
    }
  }

  /** The length of a filtered list is a window count, as long as nothing lies in the future. */
  lemma {:induction false} LengthIsCount(times: seq<int>, t: int, hi: int)
    requires Bounded(times, hi)
    ensures |After(times, t)| == Count(times, t, hi)
  {
    if times != [] {
      LengthIsCount(times[..|times| - 1], t, hi);
    }
  }

  lemma {:induction false} CountMonotone(times: seq<int>, lo: int, hi: int, lo': int, hi': int)
    requires lo' <= lo && hi <= hi'
    ensures Count(times, lo, hi) <= Count(times, lo', hi')
  {
    if times != [] {
      CountMonotone(times[..|times| - 1], lo, hi, lo', hi');
    }
  }

  /** A window that ends after every time counts what the window cut at the last time counts. */
  lemma {:induction false} CountClipped(times: seq<int>, lo: int, hi: int, now: int)
    requires now <= hi && Bounded(times, now)
    ensures Count(times, lo, hi) == Count(times, lo, now)
  {
    if times != [] {
      CountClipped(times[..|times| - 1], lo, hi, now);
    }
  }

  lemma {:induction false} CountIsMember(times: seq<int>, at: int)
    ensures Count(times, at - 1, at) > 0 <==> at in times
  {
    if times != [] {
      CountIsMember(times[..|times| - 1], at);
      assert times == times[..|times| - 1] + [times[|times| - 1]];
    }
  }

  lemma {:induction false} AfterIsBounded(times: seq<int>, t: int, hi: int)
    requires Bounded(times, hi)
    ensures Bounded(After(times, t), hi)
  {
    if times != [] {
      AfterIsBounded(times[..|times| - 1], t, hi);
      assert times[|times| - 1] <= hi;
    }
  }

  lemma PrunedCount(usage: Usage, key: Workspace, day: int, lo: int, hi: int)
    requires day <= lo
    ensures Count(Times(Pruned(usage, day), key), lo, hi) == Count(Times(usage, key), lo, hi)
  {
    CountAfter(Times(usage, key), day, lo, hi);
    if key in usage && After(usage[key], day) == [] { assert Count([], lo, hi) == 0; }
  }

  lemma LoadedCount(file: Usage, key: Workspace, now: int, lo: int, hi: int)
    requires now - DAY <= lo
    ensures Count(Times(Loaded(file, now), key), lo, hi) == Count(Times(file, key), lo, hi)
  {
    CountAfter(Times(file, key), now - DAY, lo, hi);
  }

  ghost predicate NothingLaterThan(usage: Usage, now: int) {
    forall key :: key in usage ==> Bounded(usage[key], now)
  }

  lemma PrunedIsBounded(usage: Usage, day: int, now: int)
    requires NothingLaterThan(usage, now)
    ensures NothingLaterThan(Pruned(usage, day), now)
  {
    forall key | key in usage ensures Bounded(After(usage[key], day), now) {
      AfterIsBounded(usage[key], day, now);
    }
  }

  lemma LoadedIsBounded(usage: Usage, now: int)
    requires NothingLaterThan(usage, now)
    ensures NothingLaterThan(Loaded(usage, now), now)
  {
    forall key | key in usage ensures Bounded(After(usage[key], now - DAY), now) {
      AfterIsBounded(usage[key], now - DAY, now);
    }
  }

  /** The counts a decision is based on are the counts of the two windows that end now. */
  lemma DecisionCounts(usage: Usage, key: Workspace, now: int)
    requires NothingLaterThan(usage, now)
    ensures var recent := After(Times(Pruned(usage, now - DAY), key), now - DAY);
            && |After(recent, now - MINUTE)| == Count(Times(usage, key), now - MINUTE, now)
            && |recent| == Count(Times(usage, key), now - DAY, now)
  {
    var times := Times(Pruned(usage, now - DAY), key);
    PrunedIsBounded(usage, now - DAY, now);
    LengthIsCount(times, now - DAY, now);
    AfterIsBounded(times, now - DAY, now);
    LengthIsCount(After(times, now - DAY), now - MINUTE, now);
    CountAfter(times, now - DAY, now - MINUTE, now);
    PrunedCount(usage, key, now - DAY, now - MINUTE, now);
    PrunedCount(usage, key, now - DAY, now - DAY, now);
  }

  /**
   A decision adds the request, if admitted, to its own workspace's windows, and changes no other count of the last
   day.
   */
  lemma DecisionCount(usage: Usage, key: Workspace, now: int, k: Workspace, lo: int, hi: int)
    requires now - DAY <= lo
    ensures var d := Decide(usage, key, now);
            Count(Times(d.attempts, k), lo, hi) ==
            Count(Times(usage, k), lo, hi) + if k == key && d.admitted.Some? && lo < now <= hi then 1 else 0
  {
    var times := Times(Pruned(usage, now - DAY), key);
    if k == key && Decide(usage, key, now).admitted.Some? {
      CountSnoc(After(times, now - DAY), now, lo, hi);
      CountAfter(times, now - DAY, lo, hi);
    }
    PrunedCount(usage, k, now - DAY, lo, hi);
  }

  lemma DecisionIsBounded(usage: Usage, key: Workspace, now: int)
    requires NothingLaterThan(usage, now)
    ensures NothingLaterThan(Decide(usage, key, now).attempts, now)
  {
    PrunedIsBounded(usage, now - DAY, now);
    AfterIsBounded(Times(Pruned(usage, now - DAY), key), now - DAY, now);
  }

  /**
   A request is admitted exactly when neither window ending now is full; what is left is then exact,
   counting this request, and not negative.
   */
  lemma DecisionIsExact(usage: Usage, key: Workspace, now: int)
    requires NothingLaterThan(usage, now)
    ensures var d := Decide(usage, key, now);
            && (d.admitted.Some? <==> Count(Times(usage, key), now - MINUTE, now) < MAX_PER_MINUTE
                                      && Count(Times(usage, key), now - DAY, now) < MAX_PER_DAY)
            && (d.admitted.Some? ==>
                  && d.admitted.value.minute == MAX_PER_MINUTE - Count(Times(d.attempts, key), now - MINUTE, now) >= 0
                  && d.admitted.value.day == MAX_PER_DAY - Count(Times(d.attempts, key), now - DAY, now) >= 0)
  {
    DecisionCounts(usage, key, now);
    DecisionCount(usage, key, now, key, now - MINUTE, now);
    DecisionCount(usage, key, now, key, now - DAY, now);
  }
}
