/**
 Brute-force lockout, kept twice: in the memory of the Go process and in a hash that a
 Redis script rewrites. Instants are positive integers in one unit; zero means never.
 The two copies answer alike, and exactly when they do is part of the statement.
 */
module BruteForce {
  import opened Wrappers

  datatype Limits = Limits(maxFails: int, lockout: nat, maxLockout: nat, window: int)

  function Pow2(k: nat): (p: nat)
    ensures p >= 1
  {
    if k == 0 then 1 else 2 * Pow2(k - 1)
  }

  function Min(a: int, b: int): int { if a <= b then a else b }
  function Max(a: int, b: int): int { if a <= b then b else a }

  function Doubled(x: nat, k: nat): (y: nat)
    ensures y >= x
  {
    if k == 0 then x else 2 * Doubled(x, k - 1)
  }

  /** Exponential backoff: the lockout doubled k times, capped. */
  function Backoff(l: Limits, k: nat): int { Min(Doubled(l.lockout, k), l.maxLockout) }

  lemma {:induction false} DoubledIsPower(x: nat, k: nat)
    ensures Doubled(x, k) == x * Pow2(k)
  {
    if k > 0 {
      DoubledIsPower(x, k - 1);
      assert x * (2 * Pow2(k - 1)) == 2 * (x * Pow2(k - 1));
    }
  }

  /** The backoff is min(lockout * 2^k, maxLockout). */
  lemma BackoffIsPower(l: Limits, k: nat)
    ensures Backoff(l, k) == Min(l.lockout * Pow2(k), l.maxLockout)
  {
    DoubledIsPower(l.lockout, k);
  }

  lemma {:induction false} DoublingGrows(x: nat, i: nat, k: nat)
    requires i <= k
    ensures Doubled(x, i) <= Doubled(x, k)
    decreases k - i
  {
    if i < k { DoublingGrows(x, i, k - 1); }
  }

  lemma {:induction false} DoublingReaches(x: nat, k: nat)
    requires x >= 1
    ensures Doubled(x, k) >= k + 1
  {
    if k > 0 { DoublingReaches(x, k - 1); }
  }

  // ---- The Go copy ----

  datatype AttemptRecord = AttemptRecord(failures: int, firstFailure: int, lockedUntil: int, lockoutCount: nat)

  /** The first lockout of the Go copy is not capped. */
  function GoDuration(l: Limits, k: nat): int { if k == 0 then l.lockout else Backoff(l, k) }

  function GoFail(l: Limits, r: Option<AttemptRecord>, now: int): AttemptRecord {
    if r.None? || now - r.value.firstFailure > l.window then AttemptRecord(1, now, 0, 0)
    else if r.value.failures + 1 >= l.maxFails then
      AttemptRecord(0, now, now + GoDuration(l, r.value.lockoutCount), r.value.lockoutCount + 1)
    else r.value.(failures := r.value.failures + 1)
  }

  predicate Forgettable(l: Limits, r: AttemptRecord, now: int) {
    now - r.firstFailure > l.window * 4 && r.lockedUntil <= now
  }

  function GoRemaining(r: Option<AttemptRecord>, now: int): int {
    if r.Some? && r.value.lockedUntil > now then r.value.lockedUntil - now else 0
  }

  class BruteForceProtection {
    const limits: Limits
    var attempts: map<string, AttemptRecord>

    constructor (limits: Limits)
      ensures this.limits == limits && attempts == map[]
    {
      this.limits := limits;
      attempts := map[];
    }

    function Record(key: string): Option<AttemptRecord>
      reads this
    {
      if key in attempts then Some(attempts[key]) else None
    }

    /** The doubling loop of the recorder, left as soon as the cap is passed. */
    method LockoutDuration(lockouts: nat) returns (duration: int)
      ensures duration == GoDuration(limits, lockouts)
    {
      duration := limits.lockout;
      var i := 0;
      while i < lockouts
        invariant 0 <= i <= lockouts
        invariant duration == Doubled(limits.lockout, i)
        invariant i > 0 ==> duration <= limits.maxLockout
      {
        duration := duration * 2;
        if duration > limits.maxLockout {
          DoublingGrows(limits.lockout, i + 1, lockouts);
          return limits.maxLockout;
        }
        i := i + 1;
      }
    }

    method RecordFailure(key: string, now: int)
      modifies this
      ensures attempts == old(attempts)[key := GoFail(limits, old(Record(key)), now)]
    {
      if key !in attempts || now - attempts[key].firstFailure > limits.window {
        attempts := attempts[key := AttemptRecord(1, now, 0, 0)];
        return;
      }
      var rec := attempts[key].(failures := attempts[key].failures + 1);
      if rec.failures >= limits.maxFails {
        var duration := LockoutDuration(rec.lockoutCount);
        rec := AttemptRecord(0, now, now + duration, rec.lockoutCount + 1);
      }
      attempts := attempts[key := rec];
    }

    method RecordSuccess(key: string)
      modifies this
      ensures attempts == old(attempts) - {key}
    {
      attempts := attempts - {key};
    }

    method IsBlocked(key: string, now: int) returns (blocked: bool, remaining: int)
      ensures remaining == GoRemaining(Record(key), now) && (blocked <==> remaining > 0)
    {
      if key !in attempts { return false, 0; }
      if attempts[key].lockedUntil > now { return true, attempts[key].lockedUntil - now; }
      return false, 0;
    }

    /** Drops exactly the records that are old and not locked. */
    method Cleanup(now: int)
      modifies this
      ensures attempts.Keys == set k | k in old(attempts) && !Forgettable(limits, old(attempts)[k], now)
      ensures forall k :: k in attempts ==> attempts[k] == old(attempts)[k]
    {
      var todo := attempts.Keys;
      while todo != {}
        invariant todo <= old(attempts).Keys && attempts.Keys <= old(attempts).Keys
        invariant forall k :: k in attempts ==> attempts[k] == old(attempts)[k]
        invariant forall k :: k in old(attempts) ==>
                    (k in attempts <==> k in todo || !Forgettable(limits, old(attempts)[k], now))
        decreases |todo|
      {
        var key :| key in todo;
        if Forgettable(limits, attempts[key], now) {
          attempts := attempts - {key};
        }
        todo := todo - {key};
      }
    }
  }

  // ---- The Redis copy ----

  datatype RedisHash = RedisHash(failures: int, firstFailure: int, lockoutCount: nat, lockedUntil: int, expireAt: int)

  /** A hash exists until it expires. */
  function Live(h: Option<RedisHash>, now: int): Option<RedisHash> {
    if h.Some? && now < h.value.expireAt then h else None
  }

  /** What the script's HGET calls return; missing fields read as zero. */
  function Fields(h: Option<RedisHash>): RedisHash {
    if h.Some? then h.value else RedisHash(0, 0, 0, 0, 0)
  }

  function TimeToLive(l: Limits): int { Max(l.window * 4, l.maxLockout * 2) }

  function LuaFail(l: Limits, h: Option<RedisHash>, now: int): RedisHash {
    var f := Fields(Live(h, now));
    var g := if f.firstFailure == 0 || now - f.firstFailure > l.window
             then f.(failures := 0, firstFailure := now, lockoutCount := 0) else f;
    if g.failures + 1 >= l.maxFails then
      RedisHash(0, now, g.lockoutCount + 1, now + Backoff(l, g.lockoutCount), now + TimeToLive(l))
    else g.(failures := g.failures + 1, expireAt := now + TimeToLive(l))
  }

  function LuaRemaining(h: Option<RedisHash>, now: int): int {
    var f := Fields(Live(h, now));
    if f.lockedUntil > now then f.lockedUntil - now else 0
  }

  class RedisGuard {
    const limits: Limits
    var hashes: map<string, RedisHash>

    constructor (limits: Limits)
      ensures this.limits == limits && hashes == map[]
    {
      this.limits := limits;
      hashes := map[];
    }

    function Hash(key: string): Option<RedisHash>
      reads this
    {
      if key in hashes then Some(hashes[key]) else None
    }

    /** The doubling loop of the script, left as soon as the cap is reached, and a last comparison with it. */
    method LockoutDuration(lockouts: nat) returns (duration: int)
      ensures duration == Backoff(limits, lockouts)
    {
      duration := limits.lockout;
      var i := 0;
      while i < lockouts
        invariant 0 <= i <= lockouts
        invariant duration == Doubled(limits.lockout, i)
      {
        duration := duration * 2;
        if duration >= limits.maxLockout {
          DoublingGrows(limits.lockout, i + 1, lockouts);
          duration := limits.maxLockout;
          break;
        }
        i := i + 1;
      }
      if duration > limits.maxLockout { duration := limits.maxLockout; }
    }

    method RecordFailure(key: string, now: int) returns (lockedUntil: int)
      modifies this
      ensures hashes == old(hashes)[key := LuaFail(limits, old(Hash(key)), now)]
      ensures lockedUntil == hashes[key].lockedUntil
    {
      var f := Fields(Live(Hash(key), now));
      var failures, first, lockouts := f.failures, f.firstFailure, f.lockoutCount;
      lockedUntil := f.lockedUntil;
      if first == 0 || now - first > limits.window {
        failures, first, lockouts := 0, now, 0;
      }
      failures := failures + 1;
      if failures >= limits.maxFails {
        var duration := LockoutDuration(lockouts);
        lockedUntil := now + duration;
        lockouts := lockouts + 1;
        failures := 0;
        first := now;
      }
      hashes := hashes[key := RedisHash(failures, first, lockouts, lockedUntil, now + TimeToLive(limits))];
    }

    method RecordSuccess(key: string)
      modifies this
      ensures hashes == old(hashes) - {key}
    {
      hashes := hashes - {key};
    }

    method IsBlocked(key: string, now: int) returns (remaining: int)
      ensures remaining == LuaRemaining(Hash(key), now)
    {
      var lockedUntil := Fields(Live(Hash(key), now)).lockedUntil;
      if lockedUntil > now { return lockedUntil - now; }
      return 0;
    }
  }

  // ---- Runs of one key ----

  datatype Event = Failure(at: int) | Success(at: int) | Sweep(at: int)

  datatype Copies = Copies(go: Option<AttemptRecord>, lua: Option<RedisHash>)

  const EMPTY := Copies(None, None)

  function Step(l: Limits, c: Copies, e: Event): Copies {
    match e
    case Failure(at) => Copies(Some(GoFail(l, c.go, at)), Some(LuaFail(l, c.lua, at)))
    case Success(_) => EMPTY
    case Sweep(at) => if c.go.Some? && Forgettable(l, c.go.value, at) then c.(go := None) else c
  }

  function Run(l: Limits, c: Copies, events: seq<Event>): Copies
    decreases |events|
  {
    if |events| == 0 then c else Run(l, Step(l, c, events[0]), events[1..])
  }

  /** A failure is unwelcome when the key is still locked but its window is over: the Go copy then forgets the lock. */
  predicate Unwelcome(l: Limits, c: Copies, at: int) {
    c.go.Some? && GoRemaining(c.go, at) > 0 && at - c.go.value.firstFailure > l.window
  }

  /** Instants do not decrease from `t` on, and no failure is unwelcome. */
  predicate Admissible(l: Limits, c: Copies, t: int, events: seq<Event>)
    decreases |events|
  {
    |events| > 0 ==>
      && t <= events[0].at
      && (events[0].Failure? ==> !Unwelcome(l, c, events[0].at))
      && Admissible(l, Step(l, c, events[0]), events[0].at, events[1..])
  }

  /** A run in which failures are recorded only while the key is not blocked. */
  predicate OnlyWhileNotBlocked(l: Limits, c: Copies, t: int, events: seq<Event>)
    decreases |events|
  {
    |events| > 0 ==>
      && t <= events[0].at
      && (events[0].Failure? ==> GoRemaining(c.go, events[0].at) == 0)
      && OnlyWhileNotBlocked(l, Step(l, c, events[0]), events[0].at, events[1..])
  }

  function LastInstant(t: int, events: seq<Event>): int {
    if |events| == 0 then t else events[|events| - 1].at
  }

  /** The two copies give the same answer at every instant from `t` on. */
  ghost predicate AgreeFrom(c: Copies, t: int) {
    forall q :: t <= q ==> GoRemaining(c.go, q) == LuaRemaining(c.lua, q)
  }

  // ---- Simulation ----

  /** What relates the copies after any run: equal records, up to what either may forget. */
  predicate Related(l: Limits, c: Copies, t: int) {
    match c.lua
    case None => c.go.None?
    case Some(h) =>
      && 1 <= h.firstFailure <= t
      && h.expireAt > h.firstFailure + l.window && h.expireAt >= h.lockedUntil
      && h.lockedUntil <= h.firstFailure + l.maxLockout
      && match c.go
         case None => t - h.firstFailure > l.window && h.lockedUntil <= t
         case Some(r) =>
           && r.failures == h.failures && r.firstFailure == h.firstFailure && r.lockoutCount == h.lockoutCount
           && (r.lockedUntil == h.lockedUntil || (r.lockedUntil <= t && h.lockedUntil <= t))
  }

  predicate Sensible(l: Limits) { l.maxFails >= 2 && l.lockout <= l.maxLockout && l.window >= 1 }

  lemma RelatedAgree(l: Limits, c: Copies, t: int)
    requires Related(l, c, t) && 1 <= t
    ensures AgreeFrom(c, t)
  {}

  /** One event keeps the copies related, unless it is an unwelcome failure. */
  lemma StepKeepsRelated(l: Limits, c: Copies, t: int, e: Event)
    requires Sensible(l) && Related(l, c, t) && 1 <= t <= e.at
    requires e.Failure? ==> !Unwelcome(l, c, e.at)
    ensures Related(l, Step(l, c, e), e.at)
  {}

  lemma {:induction false} RunKeepsRelated(l: Limits, c: Copies, t: int, events: seq<Event>)
    requires Sensible(l) && Related(l, c, t) && 1 <= t && Admissible(l, c, t, events)
    ensures Related(l, Run(l, c, events), LastInstant(t, events))
    decreases |events|
  {
    hide Related, Step, Unwelcome;
    if |events| > 0 {
      StepKeepsRelated(l, c, t, events[0]);
      RunKeepsRelated(l, Step(l, c, events[0]), events[0].at, events[1..]);
    }
  }

  lemma {:induction false} InstantsAdvance(l: Limits, c: Copies, t: int, events: seq<Event>)
    requires Admissible(l, c, t, events)
    ensures t <= LastInstant(t, events)
    decreases |events|
  {
    hide Step, Unwelcome;
    if |events| > 0 { InstantsAdvance(l, Step(l, c, events[0]), events[0].at, events[1..]); }
  }

  /** Over every admissible run the two copies answer alike at every later instant. */
  lemma CopiesAgree(l: Limits, t: int, events: seq<Event>)
    requires Sensible(l) && 1 <= t && Admissible(l, EMPTY, t, events)
    ensures AgreeFrom(Run(l, EMPTY, events), LastInstant(t, events))
  {
    RunKeepsRelated(l, EMPTY, t, events);
    InstantsAdvance(l, EMPTY, t, events);
    RelatedAgree(l, Run(l, EMPTY, events), LastInstant(t, events));
  }

  /** Recording failures only while not blocked is more than enough. */
  lemma {:induction false} NotBlockedIsAdmissible(l: Limits, c: Copies, t: int, events: seq<Event>)
    requires OnlyWhileNotBlocked(l, c, t, events)
    ensures Admissible(l, c, t, events)
    decreases |events|
  {
    hide Step;
    if |events| > 0 {
      NotBlockedIsAdmissible(l, Step(l, c, events[0]), events[0].at, events[1..]);
    }
  }

  // ---- Exactly when ----

  /** After related copies record one more failure they agree if and only if it was not an unwelcome one. */
  lemma FailureAgreesExactlyWhenWelcome(l: Limits, c: Copies, t: int, at: int)
    requires Sensible(l) && Related(l, c, t) && 1 <= t <= at
    ensures AgreeFrom(Step(l, c, Failure(at)), at) <==> !Unwelcome(l, c, at)
  {
    var c' := Step(l, c, Failure(at));
    if Unwelcome(l, c, at) {
      assert GoRemaining(c'.go, at) == 0 < LuaRemaining(c'.lua, at);
    } else {
      StepKeepsRelated(l, c, t, Failure(at));
      RelatedAgree(l, c', at);
    }
  }

  function Failures(n: nat, at: int): seq<Event> { seq(n, _ => Failure(at)) }

  /** Fewer failures than the limit, all at one instant, are only counted. */
  lemma {:induction false} CountingFailures(l: Limits, n: nat, at: int)
    requires 1 <= at && l.window >= 1 && 1 <= n < l.maxFails
    ensures Run(l, EMPTY, Failures(n, at))
         == Copies(Some(AttemptRecord(n, at, 0, 0)), Some(RedisHash(n, at, 0, 0, at + TimeToLive(l))))
    ensures Admissible(l, EMPTY, at, Failures(n, at))
  {
    if n == 1 {
      assert Failures(1, at) == [Failure(at)];
      assert Run(l, EMPTY, [Failure(at)]) == Run(l, Step(l, EMPTY, Failure(at)), []);
    } else {
      CountingFailures(l, n - 1, at);
      assert Failures(n, at) == Failures(n - 1, at) + [Failure(at)];
      RunAppend(l, EMPTY, at, Failures(n - 1, at), Failure(at));
    }
  }

  lemma {:induction false} RunAppend(l: Limits, c: Copies, t: int, events: seq<Event>, e: Event)
    ensures Run(l, c, events + [e]) == Step(l, Run(l, c, events), e)
    ensures Admissible(l, c, t, events) && LastInstant(t, events) <= e.at && (e.Failure? ==> !Unwelcome(l, Run(l, c, events), e.at))
            ==> Admissible(l, c, t, events + [e])
    decreases |events|
  {
    hide Step, Unwelcome;
    if |events| == 0 {
      assert events + [e] == [e];
      assert Run(l, c, [e]) == Run(l, Step(l, c, e), []);
    } else {
      assert (events + [e])[1..] == events[1..] + [e];
      RunAppend(l, Step(l, c, events[0]), events[0].at, events[1..], e);
    }
  }

  /** With a limit below two the script locks at the first failure and the Go copy does not. */
  lemma OneStrikeDisagrees(l: Limits, at: int)
    requires l.maxFails <= 1 && l.lockout >= 1 && l.maxLockout >= 1 && l.window >= 1 && 1 <= at
    ensures Admissible(l, EMPTY, at, [Failure(at)]) && !AgreeFrom(Run(l, EMPTY, [Failure(at)]), at)
  {
    var c := Step(l, EMPTY, Failure(at));
    assert Run(l, EMPTY, [Failure(at)]) == Run(l, c, []) == c;
    assert GoRemaining(c.go, at) == 0 < LuaRemaining(c.lua, at);
  }

  /** With a lockout above its cap the first lock of the Go copy is longer. */
  lemma UncappedLockDisagrees(l: Limits, at: int)
    requires l.maxFails >= 2 && l.lockout > l.maxLockout && l.window >= 1 && 1 <= at
    ensures Admissible(l, EMPTY, at, Failures(l.maxFails, at)) && !AgreeFrom(Run(l, EMPTY, Failures(l.maxFails, at)), at)
  {
    var n := l.maxFails - 1;
    CountingFailures(l, n, at);
    assert Failures(l.maxFails, at) == Failures(n, at) + [Failure(at)];
    RunAppend(l, EMPTY, at, Failures(n, at), Failure(at));
    var c := Step(l, Run(l, EMPTY, Failures(n, at)), Failure(at));
    assert GoRemaining(c.go, at) == l.lockout;
    assert LuaRemaining(c.lua, at) == l.maxLockout;
  }

  /** The copies agree on all admissible runs exactly when the limit is at least two and the lockout within its cap. */
  lemma AgreementExactly(l: Limits, t: int)
    requires l.lockout >= 1 && l.maxLockout >= 1 && l.window >= 1 && 1 <= t
    ensures (forall events :: Admissible(l, EMPTY, t, events) ==> AgreeFrom(Run(l, EMPTY, events), LastInstant(t, events)))
            <==> (l.maxFails >= 2 && l.lockout <= l.maxLockout)
  {
    hide Admissible, AgreeFrom, Step, Run;
    if Sensible(l) {
      forall events | Admissible(l, EMPTY, t, events)
        ensures AgreeFrom(Run(l, EMPTY, events), LastInstant(t, events))
      {
        CopiesAgree(l, t, events);
      }
    } else if l.maxFails <= 1 {
      OneStrikeDisagrees(l, t);
      assert LastInstant(t, [Failure(t)]) == t;
    } else {
      UncappedLockDisagrees(l, t);
      assert LastInstant(t, Failures(l.maxFails, t)) == t;
    }
  }

  // ---- All runs in order of time ----

  predicate InOrder(t: int, events: seq<Event>)
    decreases |events|
  {
    |events| > 0 ==> t <= events[0].at && InOrder(events[0].at, events[1..])
  }

  /** With a cap of at most the window and one, a lock is over before its window is, and no failure is unwelcome. */
  lemma {:induction false} ShortLocksAreAdmissible(l: Limits, c: Copies, t: int, events: seq<Event>)
    requires Sensible(l) && l.maxLockout <= l.window + 1
    requires Related(l, c, t) && 1 <= t && InOrder(t, events)
    ensures Admissible(l, c, t, events)
    decreases |events|
  {
    if |events| > 0 {
      LockIsOverInTime(l, c, t, events[0].at);
      hide Related, Step, Unwelcome;
      StepKeepsRelated(l, c, t, events[0]);
      ShortLocksAreAdmissible(l, Step(l, c, events[0]), events[0].at, events[1..]);
    }
  }

  lemma LockIsOverInTime(l: Limits, c: Copies, t: int, at: int)
    requires l.maxLockout <= l.window + 1 && Related(l, c, t) && t <= at
    ensures !Unwelcome(l, c, at)
  {}

  /** The copies after `k` locks and `j` failures since the last of them, all at one instant. */
  function Locked(l: Limits, k: nat, j: nat, at: int): Copies
    requires k >= 1
  {
    Copies(Some(AttemptRecord(j, at, at + GoDuration(l, k - 1), k)),
           Some(RedisHash(j, at, k, at + Backoff(l, k - 1), at + TimeToLive(l))))
  }

  lemma LockedStep(l: Limits, k: nat, j: nat, at: int)
    requires k >= 1 && j < l.maxFails && l.maxLockout >= 1 && l.window >= 1 && 1 <= at
    ensures Step(l, Locked(l, k, j, at), Failure(at)) == if j + 1 < l.maxFails then Locked(l, k, j + 1, at) else Locked(l, k + 1, 0, at)
  {
    hide Doubled;
  }

  lemma OneMoreFailure(l: Limits, n: nat, at: int)
    ensures Run(l, EMPTY, Failures(n + 1, at)) == Step(l, Run(l, EMPTY, Failures(n, at)), Failure(at))
  {
    hide Step;
    assert Failures(n + 1, at) == Failures(n, at) + [Failure(at)];
    RunAppend(l, EMPTY, at, Failures(n, at), Failure(at));
  }

  /** After a lock, `j` more failures at the same instant are counted. */
  lemma {:induction false} CountingOn(l: Limits, k: nat, n: nat, j: nat, at: int)
    requires k >= 1 && j < l.maxFails && l.maxLockout >= 1 && l.window >= 1 && 1 <= at
    requires Run(l, EMPTY, Failures(n, at)) == Locked(l, k, 0, at)
    ensures Run(l, EMPTY, Failures(n + j, at)) == Locked(l, k, j, at)
  {
    hide Step, Locked, Run;
    if j > 0 {
      CountingOn(l, k, n, j - 1, at);
      OneMoreFailure(l, n + j - 1, at);
      LockedStep(l, k, j - 1, at);
    }
  }

  /** Enough failures at one instant lock the key for the k-th time. */
  lemma {:induction false} LocksAgain(l: Limits, k: nat, at: int) returns (n: nat)
    requires k >= 1 && Sensible(l) && l.maxLockout >= 1 && 1 <= at
    ensures Run(l, EMPTY, Failures(n, at)) == Locked(l, k, 0, at)
  {
    if k == 1 {
      n := l.maxFails;
      CountingFailures(l, n - 1, at);
      OneMoreFailure(l, n - 1, at);
    } else {
      var before := LocksAgain(l, k - 1, at);
      CountingOn(l, k - 1, before, l.maxFails - 1, at);
      OneMoreFailure(l, before + l.maxFails - 1, at);
      LockedStep(l, k - 1, l.maxFails - 1, at);
      n := before + l.maxFails;
    }
  }

  lemma {:induction false} SameInstantInOrder(n: nat, at: int, last: int)
    requires at <= last
    ensures InOrder(at, Failures(n, at) + [Failure(last)])
    ensures InOrder(at, Failures(n, at)) && LastInstant(at, Failures(n, at)) == at
  {
    if n > 0 {
      SameInstantInOrder(n - 1, at, last);
      assert Failures(n, at)[1..] == Failures(n - 1, at);
      assert (Failures(n, at) + [Failure(last)])[1..] == Failures(n - 1, at) + [Failure(last)];
    } else {
      assert Failures(0, at) + [Failure(last)] == [Failure(last)];
    }
  }

  /**
   Whenever the cap exceeds the window and one: a run after which one more failure makes the
   Go copy forget a lock that the script keeps.
   */
  lemma LongLockIsForgotten(l: Limits, at: int) returns (n: nat)
    requires Sensible(l) && l.lockout >= 1 && l.maxLockout > l.window + 1 && 1 <= at
    ensures
      var late := at + l.window + 1;
      var c := Run(l, EMPTY, Failures(n, at));
      var after := Run(l, EMPTY, Failures(n, at) + [Failure(late)]);
      && InOrder(at, Failures(n, at) + [Failure(late)]) && Unwelcome(l, c, late)
      && GoRemaining(c.go, late) == LuaRemaining(c.lua, late) == l.maxLockout - l.window - 1
      && GoRemaining(after.go, late) == 0 && LuaRemaining(after.lua, late) == l.maxLockout - l.window - 1
      && !AgreeFrom(after, late)
  {
    n := LocksAgain(l, l.maxLockout + 1, at);
    DoublingReaches(l.lockout, l.maxLockout);
    var late := at + l.window + 1;
    SameInstantInOrder(n, at, late);
    hide Failures, Doubled, Run;
    RunAppend(l, EMPTY, at, Failures(n, at), Failure(late));
    var after := Run(l, EMPTY, Failures(n, at) + [Failure(late)]);
    assert GoRemaining(after.go, late) != LuaRemaining(after.lua, late);
  }

  /**
   Over all runs in order of time the two copies agree if and only if the limit is at least
   two, the lockout within its cap, and the cap within the window and one.
   */
  lemma AgreementOverAllRunsExactly(l: Limits, t: int)
    requires l.lockout >= 1 && l.maxLockout >= 1 && l.window >= 1 && 1 <= t
    ensures (forall events :: InOrder(t, events) ==> AgreeFrom(Run(l, EMPTY, events), LastInstant(t, events)))
            <==> (l.maxFails >= 2 && l.lockout <= l.maxLockout <= l.window + 1)
  {
    if Sensible(l) && l.maxLockout <= l.window + 1 {
      hide AgreeFrom, Step, Run;
      forall events | InOrder(t, events)
        ensures AgreeFrom(Run(l, EMPTY, events), LastInstant(t, events))
      {
        ShortLocksAreAdmissible(l, EMPTY, t, events);
        CopiesAgree(l, t, events);
      }
    } else {
      var events := DisagreeingRun(l, t);
    }
  }

  lemma DisagreeingRun(l: Limits, t: int) returns (events: seq<Event>)
    requires l.lockout >= 1 && l.maxLockout >= 1 && l.window >= 1 && 1 <= t
    requires l.maxFails <= 1 || l.lockout > l.maxLockout || l.maxLockout > l.window + 1
    ensures InOrder(t, events) && !AgreeFrom(Run(l, EMPTY, events), LastInstant(t, events))
  {
    hide AgreeFrom, Step, Run, Failures;
    if l.maxFails <= 1 {
      OneStrikeDisagrees(l, t);
      events := [Failure(t)];
    } else if l.lockout > l.maxLockout {
      UncappedLockDisagrees(l, t);
      SameInstantInOrder(l.maxFails, t, t);
      events := Failures(l.maxFails, t);
    } else {
      var n := LongLockIsForgotten(l, t);
      events := Failures(n, t) + [Failure(t + l.window + 1)];
    }
  }
}
