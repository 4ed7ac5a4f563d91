/** What locks a key and what does not: over runs with any gaps between the events. */
module LockoutLaws {
  import opened Wrappers
  import opened BruteForce

  function FailuresIn(events: seq<Event>): nat {
    if |events| == 0 then 0 else FailuresIn(events[..|events| - 1]) + if events[|events| - 1].Failure? then 1 else 0
  }

  predicate NoSuccess(events: seq<Event>) { forall i :: 0 <= i < |events| ==> !events[i].Success? }

  /** Since event `j` there has been no success, and as many failures as the record counts, none before its first one. */
  predicate CountedSince(events: seq<Event>, j: nat, r: AttemptRecord) {
    && j <= |events| && NoSuccess(events[j..]) && FailuresIn(events[j..]) == r.failures
    && forall i :: j <= i < |events| ==> events[i].at >= r.firstFailure
  }

  lemma OneMoreEvent(events: seq<Event>, e: Event, j: nat)
    requires j <= |events|
    ensures (events + [e])[j..] == events[j..] + [e]
    ensures NoSuccess(events[j..] + [e]) <==> NoSuccess(events[j..]) && !e.Success?
    ensures FailuresIn(events[j..] + [e]) == FailuresIn(events[j..]) + if e.Failure? then 1 else 0
  {
    var tail := events[j..] + [e];
    assert tail[..|tail| - 1] == events[j..];
    assert NoSuccess(tail) ==> forall i :: 0 <= i < |events[j..]| ==> tail[i] == events[j..][i];
    assert tail[|tail| - 1] == e;
  }

  lemma {:induction false} InOrderMore(t: int, events: seq<Event>, e: Event)
    requires InOrder(t, events + [e])
    ensures InOrder(t, events) && LastInstant(t, events) <= e.at && t <= e.at
    ensures forall i :: 0 <= i < |events| ==> events[i].at <= e.at
    decreases |events|
  {
    if |events| > 0 {
      assert (events + [e])[1..] == events[1..] + [e];
      InOrderMore(events[0].at, events[1..], e);
      forall i | 0 <= i < |events|
        ensures events[i].at <= e.at
      {
        if i > 0 { assert events[1..][i - 1] == events[i]; }
      }
    }
  }

  /** The record of the Go copy counts the failures since some event. */
  lemma {:induction false} RecordCounts(l: Limits, t: int, events: seq<Event>) returns (j: nat)
    requires InOrder(t, events)
    ensures j <= |events|
    ensures Run(l, EMPTY, events).go.Some? ==>
              CountedSince(events, j, Run(l, EMPTY, events).go.value) && Run(l, EMPTY, events).go.value.firstFailure <= LastInstant(t, events)
    decreases |events|
  {
    hide Run, Step, CountedSince;
    j := 0;
    if |events| == 0 {
      assert Run(l, EMPTY, events) == EMPTY by { RunOfNothing(l); }
    } else {
      var n := |events| - 1;
      var before, e := events[..n], events[n];
      assert events == before + [e];
      InOrderMore(t, before, e);
      RunAppend(l, EMPTY, t, before, e);
      var i := RecordCounts(l, t, before);
      j := CountingStep(l, before, Run(l, EMPTY, before), e, i);
    }
  }

  lemma CountingStep(l: Limits, before: seq<Event>, c: Copies, e: Event, i: nat) returns (j: nat)
    requires forall k :: 0 <= k < |before| ==> before[k].at <= e.at
    requires i <= |before|
    requires c.go.Some? ==> CountedSince(before, i, c.go.value) && c.go.value.firstFailure <= e.at
    ensures j <= |before| + 1
    ensures
      var go := Step(l, c, e).go;
      go.Some? ==> CountedSince(before + [e], j, go.value) && go.value.firstFailure <= e.at
  {
    hide LuaFail, GoDuration, Forgettable, NoSuccess, FailuresIn;
    OneMoreEvent(before, e, i);
    NothingSince(before + [e]);
    if e.Failure? && (c.go.None? || e.at - c.go.value.firstFailure > l.window) {
      j := |before|;
      OneMoreEvent(before, e, j);
      NothingSince(before);
    } else if e.Failure? && c.go.value.failures + 1 >= l.maxFails {
      j := |before| + 1;
    } else {
      j := i;
    }
  }

  lemma NothingSince(events: seq<Event>)
    ensures events[|events|..] == [] && NoSuccess([]) && FailuresIn([]) == 0
  {}

  lemma RunOfNothing(l: Limits)
    ensures Run(l, EMPTY, []) == EMPTY
  {}

  /**
   A lock begins only after as many failures as the limit, the last one included, within one
   window and with no success among them.
   */
  lemma LockNeedsFailures(l: Limits, t: int, events: seq<Event>, at: int) returns (j: nat)
    requires 1 <= t && InOrder(t, events + [Failure(at)])
    requires GoRemaining(Run(l, EMPTY, events).go, at) == 0 && GoRemaining(Run(l, EMPTY, events + [Failure(at)]).go, at) > 0
    ensures
      var all := events + [Failure(at)];
      && j <= |events| && NoSuccess(all[j..]) && FailuresIn(all[j..]) >= l.maxFails
      && forall i :: j <= i < |all| ==> at - l.window <= all[i].at <= at
  {
    hide Run, GoDuration, LuaFail, NoSuccess, FailuresIn;
    var all := events + [Failure(at)];
    InOrderMore(t, events, Failure(at));
    RunAppend(l, EMPTY, t, events, Failure(at));
    j := RecordCounts(l, t, events);
    OneMoreEvent(events, Failure(at), j);
  }

  // ---- Enough failures ----

  function FailuresAt(times: seq<int>): seq<Event> { seq(|times|, i requires 0 <= i < |times| => Failure(times[i])) }

  /** Instants in order, within one window of the first. */
  predicate WithinWindow(l: Limits, times: seq<int>) {
    (forall i, j :: 0 <= i < j < |times| ==> times[i] <= times[j]) && forall i :: 0 <= i < |times| ==> times[i] <= times[0] + l.window
  }

  lemma {:induction false} FailuresAreCounted(l: Limits, times: seq<int>)
    requires 1 <= |times| < l.maxFails && l.window >= 1 && times[0] >= 1 && WithinWindow(l, times)
    ensures Run(l, EMPTY, FailuresAt(times))
         == Copies(Some(AttemptRecord(|times|, times[0], 0, 0)),
                   Some(RedisHash(|times|, times[0], 0, 0, times[|times| - 1] + TimeToLive(l))))
    decreases |times|
  {
    hide Doubled;
    var n := |times| - 1;
    if n == 0 {
      assert FailuresAt(times) == [Failure(times[0])];
      assert Run(l, EMPTY, [Failure(times[0])]) == Run(l, Step(l, EMPTY, Failure(times[0])), []);
    } else {
      FailuresAreCounted(l, times[..n]);
      assert FailuresAt(times) == FailuresAt(times[..n]) + [Failure(times[n])];
      RunAppend(l, EMPTY, times[0], FailuresAt(times[..n]), Failure(times[n]));
    }
  }

  /** Fewer failures than the limit lock nothing; as many, within a window, lock the key for the lockout, in both copies. */
  lemma EnoughFailuresLock(l: Limits, times: seq<int>)
    requires Sensible(l) && 1 <= |times| <= l.maxFails && times[0] >= 1 && WithinWindow(l, times)
    ensures
      var c, now := Run(l, EMPTY, FailuresAt(times)), times[|times| - 1];
      GoRemaining(c.go, now) == LuaRemaining(c.lua, now) == if |times| == l.maxFails then l.lockout else 0
  {
    hide Run;
    var n := |times| - 1;
    if |times| == l.maxFails {
      FailuresAreCounted(l, times[..n]);
      assert FailuresAt(times) == FailuresAt(times[..n]) + [Failure(times[n])];
      RunAppend(l, EMPTY, times[0], FailuresAt(times[..n]), Failure(times[n]));
    } else {
      FailuresAreCounted(l, times);
    }
  }

  /** A success wipes the slate: whatever came before it, the key is free, and the run goes on as from no record at all. */
  lemma {:induction false} SuccessForgives(l: Limits, before: seq<Event>, at: int, later: seq<Event>)
    ensures Run(l, EMPTY, before + [Success(at)]) == EMPTY
    ensures Run(l, EMPTY, before + [Success(at)] + later) == Run(l, EMPTY, later)
  {
    hide Step;
    RunOfBoth(l, EMPTY, before, [Success(at)]);
    RunOfBoth(l, EMPTY, before + [Success(at)], later);
    Forgiven(l, Run(l, EMPTY, before), at);
  }

  lemma Forgiven(l: Limits, c: Copies, at: int)
    ensures Run(l, c, [Success(at)]) == EMPTY
  {
    assert Run(l, c, [Success(at)]) == Run(l, Step(l, c, Success(at)), []);
  }

  lemma {:induction false} RunOfBoth(l: Limits, c: Copies, a: seq<Event>, b: seq<Event>)
    ensures Run(l, c, a + b) == Run(l, Run(l, c, a), b)
    decreases |a|
  {
    hide Step;
    if |a| == 0 {
      assert a + b == b;
    } else {
      assert (a + b)[1..] == a[1..] + b;
      RunOfBoth(l, Step(l, c, a[0]), a[1..], b);
    }
  }
}
