/** The login lock of internal/httpapi/server.go and the way handleLogin drives it. */
module LoginLock {
  import opened Basics

  datatype LoginAttempt = LoginAttempt(count: nat, windowStart: Time, lockedUntil: Time)

  /** What a map lookup yields for an email that has no entry. */
  const ZERO_ATTEMPT := LoginAttempt(0, 0, 0)

  type Entry = Option<LoginAttempt>

  predicate Locked(e: Entry, now: Instant) {
    e.Some? && now < e.value.lockedUntil
  }

  /** `IsLocked` drops an entry whose lock has elapsed. */
  function Checked(e: Entry, now: Instant): Entry {
    if e.Some? && e.value.lockedUntil != 0 && e.value.lockedUntil < now then None else e
  }

  /** The attempt a failure at `now` is added to: a new one once the window has passed. */
  function Current(e: Entry, window: nat, now: Instant): LoginAttempt {
    var a := if e.Some? then e.value else ZERO_ATTEMPT;
    if a.windowStart == 0 || now - a.windowStart > window then LoginAttempt(0, now, 0) else a
  }

  function Recorded(e: Entry, maxAttempts: int, window: nat, now: Instant): Entry {
    var a := Current(e, window, now);
    if now < a.lockedUntil then e
    else
      var count := a.count + 1;
      Some(a.(count := count, lockedUntil := if count >= maxAttempts then now + window else a.lockedUntil))
  }

  predicate ReportsLocked(e: Entry, maxAttempts: int, window: nat, now: Instant) {
    var a := Current(e, window, now);
    now < a.lockedUntil || (a.count + 1 >= maxAttempts && window > 0)
  }

  class LoginLockTracker {
    const maxAttempts: int
    const window: nat
    var entries: map<string, LoginAttempt>
    /** The last reading of the clock, which never runs backwards. */
    ghost var clock: Time

    function EntryOf(email: string): Entry
      reads this
    {
      if email in entries then Some(entries[email]) else None
    }

    /** Locks are only ever set to the instant of a counted failure plus the window. */
    ghost predicate Valid()
      reads this
    {
      forall email <- entries :: Sound(entries[email], maxAttempts, window, clock)
    }

    constructor (maxAttempts: int, window: nat)
      requires maxAttempts >= 1
      ensures Valid() && entries == map[] && this.maxAttempts == maxAttempts && this.window == window
    {
      this.maxAttempts := maxAttempts;
      this.window := window;
      entries := map[];
      clock := 0;
    }

    method IsLocked(email: string, now: Instant, later: Instant) returns (locked: bool, remaining: int)
      requires Valid() && clock <= now <= later
      modifies this
      ensures Valid() && clock == now
      ensures locked == Locked(old(EntryOf(email)), now)
      ensures remaining == if locked then old(EntryOf(email)).value.lockedUntil - later else 0
      ensures EntryOf(email) == Checked(old(EntryOf(email)), now)
      ensures locked ==> EntryOf(email) == old(EntryOf(email))
      ensures entries - {email} == old(entries) - {email}
    {
      clock := now;
      if email !in entries {
        return false, 0;
      }
      var entry := entries[email];
      if now < entry.lockedUntil {
        return true, entry.lockedUntil - later;
      }
      if entry.lockedUntil != 0 && entry.lockedUntil < now {
        entries := entries - {email};
      }
      return false, 0;
    }

    method RecordFailure(email: string, now: Instant, later: Instant) returns (locked: bool, remaining: int)
      requires Valid() && clock <= now <= later && maxAttempts >= 1
      modifies this
      ensures Valid() && clock == now
      ensures locked == ReportsLocked(old(EntryOf(email)), maxAttempts, window, now)
      ensures locked == Locked(EntryOf(email), now)
      ensures remaining == if locked then EntryOf(email).value.lockedUntil - later else 0
      ensures EntryOf(email) == Recorded(old(EntryOf(email)), maxAttempts, window, now)
      ensures entries - {email} == old(entries) - {email}
    {
      clock := now;
      var entry := if email in entries then entries[email] else ZERO_ATTEMPT;
      if entry.windowStart == 0 || now - entry.windowStart > window {
        entry := LoginAttempt(0, now, 0);
      }
      if now < entry.lockedUntil {
        return true, entry.lockedUntil - later;
      }
      entry := entry.(count := entry.count + 1);
      if entry.count >= maxAttempts {
        entry := entry.(lockedUntil := now + window);
      }
      entries := entries[email := entry];
      if now < entry.lockedUntil {
        return true, entry.lockedUntil - later;
      }
      return false, 0;
    }

    method Clear(email: string)
      requires Valid()
      modifies this
      ensures Valid() && clock == old(clock) && entries == old(entries) - {email}
    {
      entries := entries - {email};
    }

    /** The part of handleLogin that a wrong password goes through: at most one failure is recorded, and only
        after `IsLocked` said no. `admitted` says whether it was, `locked` whether the answer reports a lock. */
    method FailedLogin(email: string, checkedAt: Instant, failedAt: Instant, later: Instant)
        returns (admitted: bool, locked: bool)
      requires Valid() && clock <= checkedAt <= failedAt <= later && maxAttempts >= 1
      modifies this
      ensures Valid() && checkedAt <= clock <= failedAt
      ensures admitted == Admits(old(EntryOf(email)), Attempt(checkedAt, failedAt))
      ensures EntryOf(email) == Attempted(old(EntryOf(email)), maxAttempts, window, Attempt(checkedAt, failedAt))
      ensures locked == Locked(EntryOf(email), if admitted then failedAt else checkedAt)
      ensures entries - {email} == old(entries) - {email}
    {
      var remaining;
      locked, remaining := IsLocked(email, checkedAt, failedAt);
      admitted := !locked;
      if admitted {
        ghost var between := entries;
        locked, remaining := RecordFailure(email, failedAt, later);
        assert entries - {email} == between - {email};
      }
    }
  }

  /** Every entry the tracker stores. */
  ghost predicate Sound(a: LoginAttempt, maxAttempts: int, window: nat, clock: Time) {
    && 0 < a.windowStart <= clock && a.count >= 1
    && (a.lockedUntil != 0 <==> a.count >= maxAttempts)
    && (a.lockedUntil != 0 ==> a.windowStart + window <= a.lockedUntil)
  }

  // ------------------------------------------------------------------ runs

  datatype Attempt = Attempt(checkedAt: Instant, failedAt: Instant)

  predicate Admits(e: Entry, attempt: Attempt) {
    !Locked(e, attempt.checkedAt)
  }

  function Attempted(e: Entry, maxAttempts: int, window: nat, attempt: Attempt): Entry {
    if Admits(e, attempt)
    then Recorded(Checked(e, attempt.checkedAt), maxAttempts, window, attempt.failedAt)
    else Checked(e, attempt.checkedAt)
  }

  /** One attempt after the other, as one client that waits for each answer makes them. */
  ghost predicate Sequential(attempts: seq<Attempt>) {
    && (forall a <- attempts :: a.checkedAt <= a.failedAt)
    && forall i, j :: 0 <= i < j < |attempts| ==> attempts[i].failedAt <= attempts[j].checkedAt
  }

  /** The entry of one email after a run of attempts without a successful login in between. */
  function EntryAfter(maxAttempts: int, window: nat, start: Entry, attempts: seq<Attempt>): Entry {
    if attempts == [] then start
    else Attempted(EntryAfter(maxAttempts, window, start, attempts[..|attempts| - 1]), maxAttempts, window,
                   attempts[|attempts| - 1])
  }

  /** How many failures the run admitted at instants in the half-open interval [from, to). */
  function Failures(maxAttempts: int, window: nat, attempts: seq<Attempt>, from: int, to: int): nat {
    if attempts == [] then 0
    else
      var init, last := attempts[..|attempts| - 1], attempts[|attempts| - 1];
      Failures(maxAttempts, window, init, from, to)
      + if from <= last.failedAt < to && Admits(EntryAfter(maxAttempts, window, None, init), last) then 1 else 0
  }

  function Bound(maxAttempts: int): int {
    if maxAttempts >= 2 then 2 * maxAttempts - 2 else 1
  }

  lemma {:induction false} NothingBefore(maxAttempts: int, window: nat, attempts: seq<Attempt>, from: int, to: int)
    requires forall a <- attempts :: a.failedAt < from
    ensures Failures(maxAttempts, window, attempts, from, to) == 0
  {
    if attempts != [] {
      NothingBefore(maxAttempts, window, attempts[..|attempts| - 1], from, to);
    }
  }

  /** `n` failures since `from`: an attempt window opened earlier spent its first failure before `from`, one
      opened since then follows at most one unlocked window, and a lock keeps everything else out. */
  ghost predicate Spent(e: Entry, n: nat, maxAttempts: int, window: nat, from: int, clock: Time) {
    match e
    case None => n == 0
    case Some(a) =>
      && Sound(a, maxAttempts, window, clock)
      && if a.lockedUntil != 0 then n <= if a.lockedUntil - window < from then 0 else Bound(maxAttempts)
         else if a.windowStart < from then n <= a.count - 1
         else n <= a.count + maxAttempts - 2
  }

  lemma SpentStep(e: Entry, n: nat, maxAttempts: int, window: nat, from: int, clock: Time, attempt: Attempt)
    requires maxAttempts >= 1 && clock <= attempt.checkedAt <= attempt.failedAt < from + window
    requires Spent(e, n, maxAttempts, window, from, clock)
    requires attempt.failedAt < from ==> n == 0
    ensures Spent(Attempted(e, maxAttempts, window, attempt),
                  n + if from <= attempt.failedAt && Admits(e, attempt) then 1 else 0,
                  maxAttempts, window, from, attempt.failedAt)
  {
    var checked := Checked(e, attempt.checkedAt);
    if Admits(e, attempt) && e.Some? && e.value.lockedUntil != 0 {
      // the lock has elapsed, so it was set before `from`
      assert n == 0;
    }
  }

  function Clock(attempts: seq<Attempt>): Time {
    if attempts == [] then 0 else attempts[|attempts| - 1].failedAt
  }

  lemma {:induction false} FailuresPerEntry(maxAttempts: int, window: nat, attempts: seq<Attempt>, from: int)
    requires maxAttempts >= 1 && Sequential(attempts)
    requires Clock(attempts) < from + window
    ensures Spent(EntryAfter(maxAttempts, window, None, attempts),
                  Failures(maxAttempts, window, attempts, from, from + window), maxAttempts, window, from,
                  Clock(attempts))
  {
    if attempts != [] {
      var init, last := attempts[..|attempts| - 1], attempts[|attempts| - 1];
      assert init != [] ==> Clock(init) <= last.checkedAt by {
        if init != [] { assert attempts[|init| - 1].failedAt <= attempts[|init|].checkedAt; }
      }
      FailuresPerEntry(maxAttempts, window, init, from);
      if last.failedAt < from {
        forall a <- init ensures a.failedAt < from {
          var i :| 0 <= i < |init| && init[i] == a;
          assert attempts[i].failedAt <= attempts[|init|].checkedAt;
        }
        NothingBefore(maxAttempts, window, init, from, from + window);
      }
      SpentStep(EntryAfter(maxAttempts, window, None, init),
                Failures(maxAttempts, window, init, from, from + window),
                maxAttempts, window, from, Clock(init), last);
    }
  }

  /** Any half-open interval as long as the window admits at most `Bound` failures for one email. */
  lemma {:induction false} FailureBound(maxAttempts: int, window: nat, attempts: seq<Attempt>, from: int)
    requires maxAttempts >= 1 && Sequential(attempts)
    ensures Failures(maxAttempts, window, attempts, from, from + window) <= Bound(maxAttempts)
  {
    if attempts != [] && attempts[|attempts| - 1].failedAt >= from + window {
      FailureBound(maxAttempts, window, attempts[..|attempts| - 1], from);
    } else if attempts != [] {
      FailuresPerEntry(maxAttempts, window, attempts, from);
    }
  }

  // ------------------------------------------------------------ tightness

  function Burst(at: Instant, n: nat): seq<Attempt> {
    seq(n, _ => Attempt(at, at))
  }

  ghost predicate Unlocked(e: Entry) {
    e.Some? ==> e.value.lockedUntil == 0
  }

  function Counted(a: LoginAttempt, n: nat, maxAttempts: int, window: nat, at: Instant): Entry {
    var count := a.count + n;
    Some(LoginAttempt(count, a.windowStart, if count >= maxAttempts then at + window else 0))
  }

  lemma OneAdmitted(maxAttempts: int, window: nat, attempts: seq<Attempt>, at: Instant, from: int, to: int)
    requires from <= at < to && Unlocked(EntryAfter(maxAttempts, window, None, attempts))
    ensures var e := EntryAfter(maxAttempts, window, None, attempts);
            var run := attempts + [Attempt(at, at)];
            && EntryAfter(maxAttempts, window, None, run) == Counted(Current(e, window, at), 1, maxAttempts, window, at)
            && Failures(maxAttempts, window, run, from, to) == Failures(maxAttempts, window, attempts, from, to) + 1
  {
    var run := attempts + [Attempt(at, at)];
    assert run[..|run| - 1] == attempts;
  }

  lemma CountedStep(e: Entry, a: LoginAttempt, n: nat, maxAttempts: int, window: nat, at: Instant)
    requires n >= 1 && a.windowStart != 0 && at - a.windowStart <= window && a.count + n <= maxAttempts
    requires if n == 1 then Current(e, window, at) == a else e == Counted(a, n - 1, maxAttempts, window, at)
    ensures n > 1 ==> Unlocked(e)
    ensures Counted(Current(e, window, at), 1, maxAttempts, window, at) == Counted(a, n, maxAttempts, window, at)
  {
  }

  /** `n` failures at one instant on an unlocked entry are all admitted while the limit is not passed. */
  lemma {:induction false} BurstAdmitted(maxAttempts: int, window: nat, attempts: seq<Attempt>, a: LoginAttempt,
                                         at: Instant, n: nat, from: int, to: int)
    requires n >= 1 && from <= at < to && a.windowStart != 0
    requires Unlocked(EntryAfter(maxAttempts, window, None, attempts))
    requires a == Current(EntryAfter(maxAttempts, window, None, attempts), window, at) && a.count + n <= maxAttempts
    ensures EntryAfter(maxAttempts, window, None, attempts + Burst(at, n)) == Counted(a, n, maxAttempts, window, at)
    ensures Failures(maxAttempts, window, attempts + Burst(at, n), from, to)
         == Failures(maxAttempts, window, attempts, from, to) + n
    decreases n
  {
    var run := attempts + Burst(at, n);
    var init := attempts + Burst(at, n - 1);
    assert run == init + [Attempt(at, at)];
    if n == 1 {
      assert init == attempts;
    } else {
      BurstAdmitted(maxAttempts, window, attempts, a, at, n - 1, from, to);
    }
    CountedStep(EntryAfter(maxAttempts, window, None, init), a, n, maxAttempts, window, at);
    OneAdmitted(maxAttempts, window, init, at, from, to);
  }

  lemma SequentialBurst(attempts: seq<Attempt>, at: Instant, n: nat)
    requires Sequential(attempts) && Clock(attempts) <= at
    ensures Sequential(attempts + Burst(at, n))
  {
    forall i | 0 <= i < |attempts| ensures attempts[i].failedAt <= at {
      if i < |attempts| - 1 { assert attempts[i].failedAt <= attempts[|attempts| - 1].checkedAt; }
    }
  }

  /** One failure and maxAttempts - 2 more when its window ends. */
  function FirstWindow(maxAttempts: int, window: nat): seq<Attempt>
    requires maxAttempts >= 2
  {
    [Attempt(1, 1)] + Burst(1 + window, maxAttempts - 2)
  }

  /** As many failures as do not lock yet, and maxAttempts in the next window, one tick later. */
  function WorstRun(maxAttempts: int, window: nat): seq<Attempt>
    requires maxAttempts >= 1
  {
    (if maxAttempts == 1 then [] else FirstWindow(maxAttempts, window)) + Burst(2 + window, maxAttempts)
  }

  lemma WorstRunSequential(maxAttempts: int, window: nat)
    requires maxAttempts >= 1
    ensures Sequential(WorstRun(maxAttempts, window))
  {
    if maxAttempts == 1 {
      SequentialBurst([], 2 + window, maxAttempts);
    } else {
      SequentialBurst([Attempt(1, 1)], 1 + window, maxAttempts - 2);
      SequentialBurst(FirstWindow(maxAttempts, window), 2 + window, maxAttempts);
    }
  }

  lemma FirstFailure(maxAttempts: int, window: nat, from: int, to: int)
    requires maxAttempts >= 2 && 1 < from
    ensures EntryAfter(maxAttempts, window, None, [Attempt(1, 1)]) == Some(LoginAttempt(1, 1, 0))
    ensures Failures(maxAttempts, window, [Attempt(1, 1)], from, to) == 0
  {
    OneAdmitted(maxAttempts, window, [], 1, 0, 2);
    assert [] + [Attempt(1, 1)] == [Attempt(1, 1)];
    NothingBefore(maxAttempts, window, [Attempt(1, 1)], from, to);
  }

  lemma FirstWindowFailures(maxAttempts: int, window: nat, to: int)
    requires maxAttempts >= 2 && 1 <= window && 1 + window < to
    ensures var run := FirstWindow(maxAttempts, window);
            && EntryAfter(maxAttempts, window, None, run) == Some(LoginAttempt(maxAttempts - 1, 1, 0))
            && Failures(maxAttempts, window, run, 1 + window, to) == maxAttempts - 2
  {
    FirstFailure(maxAttempts, window, 1 + window, to);
    if maxAttempts > 2 {
      MoreInFirstWindow(maxAttempts, window, to);
    } else {
      assert FirstWindow(maxAttempts, window) == [Attempt(1, 1)];
    }
  }

  lemma MoreInFirstWindow(maxAttempts: int, window: nat, to: int)
    requires maxAttempts > 2 && 1 <= window && 1 + window < to
    requires EntryAfter(maxAttempts, window, None, [Attempt(1, 1)]) == Some(LoginAttempt(1, 1, 0))
    ensures var run := FirstWindow(maxAttempts, window);
            && EntryAfter(maxAttempts, window, None, run) == Some(LoginAttempt(maxAttempts - 1, 1, 0))
            && Failures(maxAttempts, window, run, 1 + window, to)
               == Failures(maxAttempts, window, [Attempt(1, 1)], 1 + window, to) + maxAttempts - 2
  {
    BurstAdmitted(maxAttempts, window, [Attempt(1, 1)], LoginAttempt(1, 1, 0), 1 + window, maxAttempts - 2,
                  1 + window, to);
  }

  /** What the attempts before the last window must have left behind. */
  ghost predicate BeforeLastWindow(maxAttempts: int, window: nat, run: seq<Attempt>, n: nat) {
    && Unlocked(EntryAfter(maxAttempts, window, None, run))
    && Current(EntryAfter(maxAttempts, window, None, run), window, 2 + window) == LoginAttempt(0, 2 + window, 0)
    && Failures(maxAttempts, window, run, 1 + window, 1 + 2 * window) == n
  }

  lemma LastWindowFailures(maxAttempts: int, window: nat, run: seq<Attempt>, n: nat)
    requires maxAttempts >= 1 && window >= 2 && BeforeLastWindow(maxAttempts, window, run, n)
    ensures Failures(maxAttempts, window, run + Burst(2 + window, maxAttempts), 1 + window, 1 + 2 * window)
         == n + maxAttempts
  {
    BurstAdmitted(maxAttempts, window, run, LoginAttempt(0, 2 + window, 0), 2 + window, maxAttempts,
                  1 + window, 1 + 2 * window);
  }

  lemma FirstWindowLeaves(maxAttempts: int, window: nat)
    requires maxAttempts >= 2 && window >= 2
    ensures BeforeLastWindow(maxAttempts, window, FirstWindow(maxAttempts, window), maxAttempts - 2)
  {
    FirstWindowFailures(maxAttempts, window, 1 + 2 * window);
  }

  /** The bound of `FailureBound` is reached by sequential attempts, on any window of at least two clock ticks. */
  lemma FailureBoundReached(maxAttempts: int, window: nat)
    requires maxAttempts >= 1 && window >= 2
    ensures Sequential(WorstRun(maxAttempts, window))
    ensures Failures(maxAttempts, window, WorstRun(maxAttempts, window), 1 + window, 1 + 2 * window)
         == Bound(maxAttempts)
  {
    WorstRunSequential(maxAttempts, window);
    if maxAttempts == 1 {
      OneIsReached(window);
    } else {
      ManyAreReached(maxAttempts, window);
    }
  }

  lemma OneIsReached(window: nat)
    requires window >= 2
    ensures Failures(1, window, WorstRun(1, window), 1 + window, 1 + 2 * window) == 1
  {
    LastWindowFailures(1, window, [], 0);
  }

  lemma ManyAreReached(maxAttempts: int, window: nat)
    requires maxAttempts >= 2 && window >= 2
    ensures Failures(maxAttempts, window, WorstRun(maxAttempts, window), 1 + window, 1 + 2 * window)
         == 2 * maxAttempts - 2
  {
    FirstWindowLeaves(maxAttempts, window);
    LastWindowFailures(maxAttempts, window, FirstWindow(maxAttempts, window), maxAttempts - 2);
  }

  // ------------------------------------------------------------- the lock

  /** `RecordFailure` reports what a check of the entry it leaves would say at the same instant. */
  lemma ReportIsCheck(e: Entry, maxAttempts: int, window: nat, now: Instant)
    ensures ReportsLocked(e, maxAttempts, window, now) <==> Locked(Recorded(e, maxAttempts, window, now), now)
  {
  }

  /** A failure that sets a lock sets it for one window, to the instant; one that does not, leaves none. */
  lemma LocksForAWindow(e: Entry, maxAttempts: int, window: nat, now: Instant, t: Instant)
    requires maxAttempts >= 1 && window >= 1 && now <= t
    requires !Locked(e, now) && (e.Some? ==> Sound(e.value, maxAttempts, window, now))
    ensures var counted := if e.Some? && now - e.value.windowStart <= window then e.value.count + 1 else 1;
            Locked(Recorded(e, maxAttempts, window, now), t) <==> counted >= maxAttempts && t < now + window
  {
  }

  /** A check forgets an elapsed lock, and with it the failures that led to it, and nothing else. */
  lemma ElapsedIsForgotten(e: Entry, now: Instant)
    ensures Checked(e, now) == None || Checked(e, now) == e
    ensures e.Some? ==> (Checked(e, now) == None <==> 0 < e.value.lockedUntil < now)
  {
  }

  /** A lock once set is reported by every check until `lockedUntil`, whatever attempts are made meanwhile. */
  lemma {:induction false} LockHolds(maxAttempts: int, window: nat, e: Entry, attempts: seq<Attempt>, now: Instant)
    requires e.Some? && now < e.value.lockedUntil
    requires forall a <- attempts :: a.checkedAt < e.value.lockedUntil
    ensures EntryAfter(maxAttempts, window, e, attempts) == e
    ensures Locked(EntryAfter(maxAttempts, window, e, attempts), now)
  {
    if attempts != [] {
      LockHolds(maxAttempts, window, e, attempts[..|attempts| - 1], now);
    }
  }

  /** `RecordFailure` without the check before it keeps reporting a running lock exactly while the attempt
      window that led to it is still open, or when a single failure locks. */
  lemma RecordFailureAloneKeepsLock(maxAttempts: int, window: nat, e: Entry, now: Instant)
    requires maxAttempts >= 1 && window >= 1
    requires e.Some? && Sound(e.value, maxAttempts, window, now) && Locked(e, now)
    ensures Locked(Recorded(e, maxAttempts, window, now), now)
       <==> (now - e.value.windowStart <= window || maxAttempts == 1)
  {
  }

  /** Two failures set a lock until 25; a third recorded at 14 without a check lifts it. */
  lemma RecordFailureAloneDropsLock()
    ensures var e := EntryAfter(2, 12, None, [Attempt(1, 1), Attempt(13, 13)]);
            Locked(e, 14) && !Locked(Recorded(e, 2, 12, 14), 14)
  {
    var attempts := [Attempt(1, 1), Attempt(13, 13)];
    assert attempts[..1] == [Attempt(1, 1)];
    assert attempts[..1][..0] == [];
  }
}
